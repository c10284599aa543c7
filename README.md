# ArchDex core in Dafny

ArchDex is a desktop Pokédex. It keeps a local SQLite copy of PokeAPI data, synchronises that copy in the background, and shows it in a paginated, searchable list with a detail view. This project models the parts of ArchDex that decide what is stored and what is shown, and proves properties of them:

- **The schema** (`Models`). The eight tables and the sync record are datatypes. A whole store is one `Db` value, and `DbValid` states the constraints the store must keep:
  - region, type, ability and move names are unique;
  - the three join tables have their composite keys;
  - the foreign keys point at stored rows.
- **The remote API** (`Api`). It is a map from URL to document per resource kind; a missing URL is a failed fetch.
  - The normalizer `get_pokemon_details` covers the form name, the species fallbacks, the region hop, per-entry de-duplication of learnable moves, the `special-` to `sp_` stat rename, and the cry URL.
  - The list fetchers are modelled too.
- **The sync engine.**
  - `Database` holds the operations as functions on `Db`: completeness, `update_pokemon_data`, and the three steps of `sync_database`. The three steps are regions, species stubs in batches of 500, and the deep update of incomplete Pokémon with progress calls.
  - `SyncEngine.Store` is a session with a working state and a committed state. Its methods run the same loops step by step, and each is proved equal to the function.
  - `DatabaseLemmas`, `UpdateLemmas` and `SyncLemmas` prove what these operations promise. Examples: the schema constraints are kept; exactly the fresh join rows remain; stubs are made only for new species; the sync record ends as "success" or "failed: ..."; a complete Pokémon is never touched; the progress calls fall at a fixed stride.
- **The detail view's pure rules** (`DetailView`, `DetailMoves`, `Evolution`):
  - stat colour bands;
  - the generation tables, the Pokémon's first generation and the default selection;
  - the per-generation move filter and the stable sort by level (an in-place insertion sort on an array);
  - the generation gates for abilities and attacking types;
  - the variety label;
  - the evolution text and the evolution tree pruned at the generation's highest species id.
- **The main window's pagination** (`MainWindow.Pagination`), a class with the page handlers.
- **The application** (`App`): the search query (LIKE filter, count, `ORDER BY id`, OFFSET/LIMIT), the offset of a page, and the `is_syncing` guard around the background sync.

`Text`, `Collections` and `Wrappers` hold the Python string, list and `None` behaviour the code relies on. Examples are `replace`, `strip`, `split`, `int`, `str`, `lower`, `capitalize`, first-match search, de-duplication with a seen-set, and sorting a set of ids.

## Model

| member | source | states |
|---|---|---|
| Models.EmptyDb | src/data/models.py:8-128 | the freshly created store, every table empty, meets every constraint of the schema |
| Models.ErrorText | src/data/database.py:353 | the message recorded for a refused insert ends with the name of the table it failed on |
| Models.Stub | src/data/database.py:313-318 | a species stub carries only the id, name, species URL and sprite URL; the form name and flags take their column defaults and every critical column is unset |
| Models.Record | src/data/database.py:132 | the ORM object of an id exists exactly when the row does, and its types, abilities and moves are exactly the join rows of that id |
| Models.RegionOf | src/data/models.py:43-44 | a region id refers to a region exactly when it is one of the assigned ids, and to that row |
| Database.IsPokemonDataComplete | src/data/database.py:94-127 | models `is_pokemon_data_complete`; `UpdateLemmas.CompleteIff` states exactly when it holds |
| Database.Complete | src/data/database.py:138 | whether the id's Pokémon is stored and complete, the test that makes `update_pokemon_data` return early; see `UpdateLemmas.UpdateSkipsComplete` |
| Database.CriticalFieldsPresent | src/data/database.py:100-112 | one flag per critical column, eleven in all |
| Database.LookupOrCreateType | src/data/database.py:190-195 | the id of the type row named `name`; an existing row is reused and nothing changes, else one row with the next id is appended |
| Database.AbilityTexts | src/data/database.py:204-213 | effect and short effect of the first English entry, "No description." for both without a document, without entries or without an English one |
| Database.LookupOrCreateAbility | src/data/database.py:201-215 | the id of the ability named `name`; an existing row is reused, else one row with the fetched texts is appended |
| Database.RegionFor | src/data/database.py:153-159 | a missing or empty region name gives none and changes nothing; else the id of the region of that name, appended when it was missing |
| Database.EnsureSyncInfo | src/data/database.py:262-268 | an existing sync record is kept; a missing one is created "in_progress" at `datetime.min` |
| Database.RegionsToAdd | src/data/database.py:280-287 | every region name to add is not stored yet |
| Database.NewRegionRows | src/data/database.py:286-289 | one `Region` row per new name, numbered after the last id |
| Database.CollectStubs | src/data/database.py:304-320 | no stub is made for an id stored when the step began |
| Database.EntryStub | src/data/database.py:309-320 | at most one stub per species entry, exactly when its URL yields an id that is not stored; the stub has that id, the entry's name and URL and the sprite URL of the id |
| Database.AddTypes | src/data/database.py:188-196 | models the type loop of `update_pokemon_data`; its effect is stated by `DatabaseLemmas.AddTypesFrame`, `AddTypesRows` and `AddTypesFresh` |
| Database.AddAbilities | src/data/database.py:199-216 | models the ability loop; its effect is stated by the `DatabaseLemmas.AddAbilities*` lemmas |
| Database.AddMove | src/data/database.py:220-252 | models one pass of the move loop (look up by name, else fetch and create, else skip); its effect is stated by `DatabaseLemmas.AddMoveEffect` |
| Database.ResolvedMoveId | src/data/database.py:222-233 | the move a record is linked to: the first stored move with its name, else the fetched move's id, else none |
| Database.AddMoves | src/data/database.py:219-252 | models the move loop; its effect is stated by the `DatabaseLemmas.AddMoves*` lemmas |
| Database.ApplyDetails | src/data/database.py:161-252 | models the writes of `update_pokemon_data` after the region step; its effect is stated by the `DatabaseLemmas.ApplyDetails*` and `UpdateLemmas.ApplyDetails*` lemmas |
| Database.UpdateSpec | src/data/database.py:129-256 | models `update_pokemon_data`; its outcomes and effect are stated by the `UpdateLemmas` lemmas, and `SyncEngine.Store.UpdatePokemonData` is proved equal to it |
| Database.SyncRegions | src/data/database.py:279-289 | models step 1 of `sync_database`; see `SyncLemmas.SyncRegionsEffect` |
| Database.AddAllRegions | src/data/database.py:77-92 | models `add_all_to_db` for region rows: all or none; see `SyncLemmas.SyncRegionsEffect` |
| Database.Batches | src/data/database.py:323-325 | the stubs cut into slices of 500; see `SyncLemmas.BatchesPartition` |
| Database.InsertBatch | src/data/database.py:325-327 | one batch added and committed; see `SyncLemmas.InsertBatchEffect` |
| Database.InsertBatches | src/data/database.py:322-327 | the batch loop, stopping at the first refused batch; see `SyncLemmas.InsertBatchesEffect` |
| Database.StubPhase | src/data/database.py:262-327 | models steps 1 and 2 of `sync_database`; see `SyncLemmas.StubPhaseEffect` and `StubPhaseStores` |
| Database.StubEvents | src/data/database.py:305-308 | the progress calls of step 2; see `SyncLemmas.SyncEvents` |
| Database.DeepStep | src/data/database.py:338-340 | one Pokémon of step 3, updated only when incomplete; see `SyncLemmas.DeepKeepsComplete` |
| Database.DeepSync | src/data/database.py:337-343 | the loop of step 3 with its progress calls; see `SyncLemmas.DeepSyncCons` and `DeepEvents` |
| Database.DeepPhase | src/data/database.py:330-343 | models step 3 over the stored Pokémon in ascending id order; see `SyncLemmas.DeepPhaseEvents`, `DeepValid` and `DeepKeepsComplete` |
| Database.SyncSpec | src/data/database.py:258-358 | models `sync_database`; see `SyncLemmas.SyncStatus`, `SyncKeepsValid`, `SyncKeepsComplete` and `SyncEvents`, and `SyncEngine.Store.SyncDatabase` is proved equal to it |
| DatabaseLemmas.FoundStaysFound | src/data/models.py:11-12 | a name found in a table is found at the same place once rows are appended |
| DatabaseLemmas.IdOfGrows | src/data/models.py:11-12 | the id found for a name does not change when rows are appended |
| DatabaseLemmas.IdOfInRange | src/data/models.py:11 | with ids assigned 1, 2, 3, ... the id of a row found by name is an assigned id |
| DatabaseLemmas.IdOfInjective | src/data/models.py:11-12 | two names found with the same id are the same name |
| DatabaseLemmas.AppendFresh | src/data/models.py:11-12 | appending a row under the next id with a new name keeps ids sequential and names unique |
| DatabaseLemmas.LookupOrCreateTypeEffect | src/data/database.py:190-195 | looking a type up before creating it keeps the `types` table valid, and the returned id names that type |
| DatabaseLemmas.LookupOrCreateAbilityEffect | src/data/database.py:201-215 | the same for `abilities` |
| DatabaseLemmas.RegionForEffect | src/data/database.py:153-159 | the region step keeps `regions` valid, and the returned id refers to a region of that name |
| DatabaseLemmas.RegionForIsAddToDb | src/data/database.py:157-159 | when the region is created, the step is `add_to_db` of that region |
| DatabaseLemmas.AddTypesFrame | src/data/database.py:188-196 | the type loop changes only `types` and the type joins, keeps every join row it found and stores every type it was given |
| DatabaseLemmas.AddTypesRows | src/data/database.py:188-196 | the type joins the loop adds are exactly one per slot |
| DatabaseLemmas.AddTypesFresh | src/data/database.py:188-196 | no added type join was stored before and no two are alike, so slots naming a type twice fail |
| DatabaseLemmas.AddAbilitiesFrame | src/data/database.py:199-216 | the ability loop changes only `abilities` and the ability joins, keeps every join row it found and stores every ability it was given |
| DatabaseLemmas.AddAbilitiesRows | src/data/database.py:199-216 | the ability joins the loop adds are exactly one per slot |
| DatabaseLemmas.AddAbilitiesFromSlots | src/data/database.py:199-216 | every added ability join comes from one of the slots |
| DatabaseLemmas.AddAbilitiesAllSlots | src/data/database.py:199-216 | every slot has its ability join afterwards |
| DatabaseLemmas.AddFreshAbilityKey | src/data/models.py:90-91 | a row whose (pokemon, ability) key is free keeps that primary key unique |
| DatabaseLemmas.AddAbilitiesFresh | src/data/database.py:199-216 | each added ability join has a free key and the slots' abilities differ, so the primary key stays unique |
| DatabaseLemmas.AppendMove | src/data/database.py:232-244 | a new move whose id and name are not stored, and whose type is, keeps `moves` valid |
| DatabaseLemmas.AddMoveEffect | src/data/database.py:220-252 | one learnable move changes only `types`, `moves` and the move joins; the join it adds, if any, is for this record and the move its name resolves to (the stored move of that name, else the fetched move's id), and it is added whenever the move is stored or can be fetched |
| DatabaseLemmas.ResolveStable | src/data/database.py:222-244 | a record whose fetched move carries the name it was fetched by leaves every move name resolving to the same id for the records after it |
| DatabaseLemmas.AddMovesFrame | src/data/database.py:219-252 | the move loop changes only `types`, `moves` and the move joins; the named tables only grow and stay valid, and no join row is lost |
| DatabaseLemmas.AddMovesNewRows | src/data/database.py:219-252 | the move loop adds join rows only for its records and for stored moves; when the fetched moves carry the names they were fetched by, each row links its record to the move the record's name resolves to when the loop starts |
| DatabaseLemmas.AddMovesCover | src/data/database.py:219-252 | every record whose move is stored or can be fetched gets a join row; when the fetched moves carry the names they were fetched by, that row is for the move the record's name resolves to |
| DatabaseLemmas.AddMovesEffect | src/data/database.py:219-252 | the move loop as a whole: frame, new rows and cover together, with the resolved move ids |
| DatabaseLemmas.ApplyDetailsFrame | src/data/database.py:161-252 | writing the details overwrites the row of the id; the named tables only grow; regions, the sync record and every other Pokémon's join rows stay |
| DatabaseLemmas.ApplyDetailsTypes | src/data/database.py:188-196 | afterwards the type joins of the id are exactly one per type slot; none from before survives |
| DatabaseLemmas.ApplyDetailsAbilities | src/data/database.py:199-216 | afterwards the ability joins of the id are exactly one per ability slot, with pairwise different abilities |
| DatabaseLemmas.ApplyDetailsMoves | src/data/database.py:219-252 | afterwards the move joins of the id come from the records and refer to stored moves, and every record whose move was stored or can be fetched has one; when the fetched moves carry the names they were fetched by, the move joins of the id are exactly one per record, for the move its name resolves to |
| UpdateLemmas.CompleteIff | src/data/database.py:94-127 | a Pokémon is incomplete exactly when it is missing, a critical column is unset, or it has no types, no abilities, no moves or no region |
| UpdateLemmas.StubIncomplete | src/data/database.py:94-127 | a species stub is never complete (see also lines 313-318) |
| UpdateLemmas.UpdateSkipsComplete | src/data/database.py:138-139 | a complete Pokémon is returned as it is, with nothing fetched and nothing changed |
| UpdateLemmas.UpdateWithoutDetails | src/data/database.py:145-148 | when the details cannot be fetched the result is None and the store is unchanged |
| UpdateLemmas.UpdateOfIdZero | src/data/api.py:54-59 | without a URL, id 0 counts as no id, so nothing is fetched |
| UpdateLemmas.UpdateFailureKeepsRegionOnly | src/data/database.py:155-159 | when writing the details fails, the only change left is the region committed before them (see also line 254) |
| UpdateLemmas.UpdateReplacesJoins | src/data/database.py:161-256 | after an update the row holds the fetched details; type and ability joins are exactly one per slot; move joins come from the records, one for every move stored or fetchable, and (when the fetched moves carry the names they were fetched by) exactly one per record for the move its name resolves to; nothing from an earlier update survives |
| UpdateLemmas.UpdateFrame | src/data/database.py:129-256 | an update leaves every other Pokémon's row and join rows, and the named tables only grow |
| UpdateLemmas.ApplyDetailsTablesValid | src/data/database.py:161-252 | writing the details keeps the named tables valid |
| UpdateLemmas.ApplyDetailsRegionLinks | src/data/database.py:185 | given a stored region, every Pokémon still refers to a stored region |
| UpdateLemmas.ApplyDetailsTypeLinks | src/data/database.py:188-196 | every type join afterwards refers to a stored Pokémon and type |
| UpdateLemmas.ApplyDetailsAbilityLinks | src/data/database.py:199-216 | every ability join afterwards refers to a stored Pokémon and ability |
| UpdateLemmas.ApplyDetailsMoveLinks | src/data/database.py:219-252 | every move join afterwards refers to a stored Pokémon and move |
| UpdateLemmas.ApplyDetailsAbilityKeys | src/data/database.py:199-216 | the primary key of `pokemon_abilities` stays unique |
| UpdateLemmas.ApplyDetailsValid | src/data/database.py:161-252 | writing the details keeps every constraint of the schema |
| UpdateLemmas.UpdateKeepsValid | src/data/database.py:129-256 | an update keeps every constraint, so no region, type, ability or move name is stored twice |
| UpdateLemmas.ApplyDetailsCompletes | src/data/database.py:94-127 | full details written under a stored region make the Pokémon complete (see also lines 161-252) |
| UpdateLemmas.UpdateCompletes | src/data/database.py:129-256 | an incomplete Pokémon updated from full details is complete, so a second update leaves it alone |
| SyncLemmas.RegionsToAddMembers | src/data/database.py:282-287 | the names to add come from the list, and every listed name the store lacks is among them |
| SyncLemmas.AppendRegionRowsValid | src/data/database.py:288-289 | appending rows for distinct, unstored names keeps ids sequential and names unique |
| SyncLemmas.AppendRegionRowsFound | src/data/database.py:288-289 | the appended rows store every one of those names |
| SyncLemmas.SyncRegionsEffect | src/data/database.py:279-289 | only `regions` changes, by appending listed names it lacked; unless a name is listed twice (then the whole insert is refused), every listed name is stored afterwards |
| SyncLemmas.CollectStubsAppend | src/data/database.py:305-320 | the stubs of two lists one after the other are the stubs of each |
| SyncLemmas.StubsFromList | src/data/database.py:305-320 | every stub is made from one of the species entries |
| SyncLemmas.StubsCoverList | src/data/database.py:305-320 | every new species of the list gets its stub |
| SyncLemmas.NoStubsIff | src/data/database.py:305-322 | no stub is made exactly when the list holds no new species, so a second sync of the same list adds none |
| SyncLemmas.StubOfSpeciesUrl | src/data/database.py:311-318 | a species URL ending in `/<id>/` gives a stub with that id and its sprite URL |
| SyncLemmas.BatchesPartition | src/data/database.py:324-325 | the batches cut the stubs into consecutive, non-empty slices of 500, the last possibly shorter |
| SyncLemmas.InsertBatchEffect | src/data/database.py:325-327 | one batch changes only `pokemon`; stored rows stay, new rows are stubs of the batch, all stored on success |
| SyncLemmas.InsertBatchesEffect | src/data/database.py:322-327 | all batches change only `pokemon`; stored rows stay, new rows are stubs, a failure is the primary key of `pokemon`, and without one every stub is stored |
| SyncLemmas.StubsHaveNoRegion | src/data/database.py:313-318 | no stub names a region |
| SyncLemmas.InsertBatchesValid | src/data/database.py:322-327 | inserting stubs keeps every constraint |
| SyncLemmas.StrideEventsMembers | src/data/database.py:306-308 | calls at a stride are made exactly at the indices the stride divides, each with the given total (see also lines 342-343) |
| SyncLemmas.DeepSyncCons | src/data/database.py:337-343 | one deep step: a failed update stops the phase with its error; otherwise this index's call, then the rest from the updated state |
| SyncLemmas.DeepEvents | src/data/database.py:337-343 | the deep phase reports every tenth index it gets past, all of them when nothing fails, none without a callback |
| SyncLemmas.DeepValid | src/data/database.py:337-340 | the deep phase keeps every constraint |
| SyncLemmas.CompleteStays | src/data/database.py:94-127 | a complete Pokémon stays complete while its row and join rows stay and regions are only appended |
| SyncLemmas.DeepKeepsComplete | src/data/database.py:338-340 | the deep phase leaves a complete Pokémon as it was |
| SyncLemmas.DeepKeepsSyncInfo | src/data/database.py:330-343 | the deep phase never changes the sync record |
| SyncLemmas.StubPhaseEffect | src/data/database.py:262-327 | the stub phase changes only `regions`, `pokemon` and the sync record; stored rows stay and regions are only appended |
| SyncLemmas.StubPhaseStores | src/data/database.py:292-327 | after a stub phase without error every listed species with a readable id is stored, and every new row is a stub of one of them |
| SyncLemmas.SyncStatus | src/data/database.py:345-356 | the record ends "success" stamped with the clock, or "failed: " and the error message with the last sync time kept (`datetime.min` without an earlier record); the error is never raised |
| SyncLemmas.SyncStubFailure | src/data/database.py:324-327 | a failed stub insert is recorded as "failed: " and the primary key of `pokemon` (see also lines 351-355) |
| SyncLemmas.SyncForeground | src/data/database.py:306 | without `background` there is no deep phase and no progress call, and every stored Pokémon keeps its row and join rows (see also line 330) |
| SyncLemmas.DeepPhaseEvents | src/data/database.py:334-343 | the deep phase's calls are at every tenth stored Pokémon (taken in ascending id order) with their number; all of them when nothing fails, none without a callback |
| SyncLemmas.SyncEventsSplit | src/data/database.py:305-343 | with `background` the stub phase's calls come first, then the deep phase's when the stubs were stored |
| SyncLemmas.SyncEvents | src/data/database.py:305-343 | with `background`, a call at every hundredth species index, then at every tenth stored id; all of them when nothing fails, none without a callback |
| SyncLemmas.StubPhaseValid | src/data/database.py:262-327 | the stub phase keeps every constraint |
| SyncLemmas.SyncKeepsValid | src/data/database.py:258-358 | a sync keeps every constraint of the schema |
| SyncLemmas.SyncKeepsComplete | src/data/database.py:337-340 | a Pokémon complete before a sync is left exactly as it was |
| SyncEngine.FindAbilityTexts | src/data/database.py:205-212 | the search loop yields `AbilityTexts` of the document |
| SyncEngine.CollectRegionNames | src/data/database.py:281-287 | the region loop yields `RegionsToAdd` |
| SyncEngine.CollectStubsLoop | src/data/database.py:303-320 | the species loop yields `CollectStubs`, and a call at every hundredth index when reporting |
| SyncEngine.Store.constructor | src/data/database.py:57-59 | a session on the stored database with nothing pending |
| SyncEngine.Store.Commit | src/data/database.py:66 | everything pending becomes committed |
| SyncEngine.Store.Rollback | src/data/database.py:70 | everything pending is dropped |
| SyncEngine.Store.AddRegion | src/data/database.py:61-75 | `add_to_db`: committed with everything pending, or rolled back when the name is taken |
| SyncEngine.Store.AddAllRegionsToDb | src/data/database.py:77-92 | `add_all_to_db`: all rows committed together, or all rolled back |
| SyncEngine.Store.AddTypeRows | src/data/database.py:188-196 | the type loop leaves `AddTypes` pending, or rolls back and returns its error |
| SyncEngine.Store.AbilityIdFor | src/data/database.py:201-215 | the ability is looked up by name, else created from its remote document, as `LookupOrCreateAbility` states |
| SyncEngine.Store.AddAbilityRows | src/data/database.py:199-216 | the ability loop leaves `AddAbilities` pending, or rolls back and returns its error |
| SyncEngine.Store.AddMoveRow | src/data/database.py:220-252 | one record leaves `AddMove` pending, or rolls back and returns its error |
| SyncEngine.Store.AddMoveRows | src/data/database.py:219-252 | the move loop leaves `AddMoves` pending, or rolls back and returns its error |
| SyncEngine.Store.UpdatePokemonData | src/data/database.py:129-256 | the outcome and the committed state are those of `UpdateSpec` |
| SyncEngine.Store.ResolveRegion | src/data/database.py:153-159 | the region state and id are those of `RegionFor`, committed at once |
| SyncEngine.Store.ApplyDetailsSteps | src/data/database.py:161-252 | the row and join rows end pending as `ApplyDetails` says, or are rolled back with its error |
| SyncEngine.Store.SyncRegionsStep | src/data/database.py:279-289 | the committed state is `SyncRegions` of the old one |
| SyncEngine.Store.InsertStubBatches | src/data/database.py:322-327 | each slice of 500 committed on its own; state and error are those of `InsertBatches` |
| SyncEngine.Store.CompleteOne | src/data/database.py:338-340 | one deep step as `DeepStep` says |
| SyncEngine.Store.DeepSyncLoop | src/data/database.py:330-343 | the deep loop's state, calls and error are those of `DeepPhase` |
| SyncEngine.Store.SyncDatabase | src/data/database.py:258-358 | the committed state and progress calls are those of `SyncSpec` |
| Api.UrlId | src/data/database.py:311 | `int(url.split("/")[-2])`, none where Python raises; see `Api.UrlIdRoundTrip` |
| Api.CleanText | src/data/api.py:170 | the flavour text with line and form feeds turned into spaces; see `Api.CleanTextHasNoBreaks` |
| Api.EntryMoves | src/data/api.py:115-131 | the records of one move entry with the per-entry seen-set; see `ApiLemmas.EntryMovesDedup` |
| Api.MovesOf | src/data/api.py:105-132 | the records of all move entries; see `ApiLemmas.MovesOfAppend` and `RepeatedEntryKeptTwice` |
| Api.StatKey | src/data/api.py:139 | the key a stat is stored under; see `ApiLemmas.StatKeySpecial` and `StatKeyPlain` |
| Api.StatsFrom | src/data/api.py:138-140 | the stats written one by one into the document; see `ApiLemmas.StatsUntouched` and `StatsLastWins` |
| Api.BuildDetails | src/data/api.py:65-145 | the normalised record of a fetched Pokémon document; see the `ApiLemmas` lemmas |
| Api.DetailsSpec | src/data/api.py:53-145 | models `get_pokemon_details`; see `ApiLemmas.DetailsTarget`, and `Api.GetPokemonDetails` is proved equal to it |
| Api.GetRegions | src/data/api.py:20-23 | the regions listed at the region list URL, or none when that list cannot be fetched |
| Api.GetAllPokemonSpeciesNames | src/data/api.py:29-33 | every species listed at the species list URL, or none when that list cannot be fetched |
| Api.GetSpeciesVarieties | src/data/api.py:35-39 | a species' varieties; none when the species cannot be fetched or has no `varieties` |
| Api.GetPokemonListByRegion | src/data/api.py:41-51 | when the region, its main generation and the generation are all fetched, the answer is the generation's species list (empty when it lists none); any missing hop gives the empty list |
| Api.UrlIdRoundTrip | src/data/database.py:311 | the id written into a resource URL is the id read back from its second-to-last `/` piece |
| Api.PokemonUrl | src/data/api.py:53-59 | a non-empty explicit URL wins; nothing is fetched exactly when there is neither such URL nor a truthy name or id |
| Api.FormName | src/data/api.py:73 | the form name never starts or ends with `-` |
| Api.DescriptionOf | src/data/api.py:167-171 | the text of the first English flavor entry with breaks turned to spaces, the fixed fallback when no entry is English, and never a line feed or form feed |
| Api.GetPokemonDescription | src/data/api.py:167-171 | the search loop returns exactly `DescriptionOf` of the species' entries |
| Api.CleanTextHasNoBreaks | src/data/api.py:170 | after the two replacements no line feed and no form feed is left |
| Api.RegionNameOf | src/data/api.py:90-97 | a region name exists exactly when the species' generation, its document and its main region are all present, and it is that region's name |
| Api.RawMoves | src/data/api.py:116-130 | one record per version-group detail of a move entry, in order, with the entry's move name and URL |
| Api.GetPokemonDetails | src/data/api.py:53-145 | the document filled in step by step equals the record `DetailsSpec` describes |
| Api.ReadSpecies | src/data/api.py:80-97 | description, flags, evolution chain URL and region read from a species document equal `SpeciesFactsOf` |
| Api.CollectMoves | src/data/api.py:105-132 | the nested move loop with a fresh seen-set per entry yields `MovesOf` of the entries |
| Api.CollectEntryMoves | src/data/api.py:115-131 | the inner loop over one entry's version-group details, with a seen-set of keys, yields that entry's de-duplicated records `EntryMoves` |
| Api.CollectStats | src/data/api.py:138-140 | the stats loop yields `StatsFrom` of the entries |
| ApiLemmas.DetailsTarget | src/data/api.py:53-63 | no URL or a failed fetch gives no record; with an explicit URL the record is built from the document there |
| ApiLemmas.FormNameOfDefaultForm | src/data/api.py:73-74 | the default form, named like its species, has an empty form name |
| ApiLemmas.FormNameOfSuffix | src/data/api.py:65-74 | a name made of the species name, `-` and a suffix yields the suffix (when the suffix has no leading or trailing `-` and no species' first letter) |
| ApiLemmas.FormNameExample | src/data/api.py:66 | an illustration of `FormNameOfSuffix`: `charizard-mega-x` is the form `mega-x` of `charizard` |
| ApiLemmas.FormNameWithoutSpecies | src/data/api.py:75-76 | without a species document the form name is empty |
| ApiLemmas.SpeciesFallbacks | src/data/api.py:98-103 | without a species document the record keeps the species URL and takes the fixed fallbacks |
| ApiLemmas.RegionNameHops | src/data/api.py:89-97 | the record has a region exactly when the species, its generation and the generation's main region are present |
| ApiLemmas.DescriptionHasNoBreaks | src/data/api.py:84 | the record's description never holds a line feed or a form feed (see also lines 99 and 170) |
| ApiLemmas.EntryMovesDedup | src/data/api.py:111-131 | per move entry: keys are distinct, every key of the details occurs, each record is the first detail with its key |
| ApiLemmas.MovesOfAppend | src/data/api.py:107-115 | the seen-set is reset per entry, so the records of joined entry lists are joined |
| ApiLemmas.RepeatedEntryKeptTwice | src/data/api.py:115 | the same move entry twice contributes its records twice |
| ApiLemmas.StatKeySpecial | src/data/api.py:139 | a leading `special-` of a stat name becomes `sp_` |
| ApiLemmas.StatKeyPlain | src/data/api.py:139 | a stat name without `special-` is its own key |
| ApiLemmas.StatKeysOfSpecialStats | src/data/api.py:139 | `special-attack` and `special-defense` become `sp_attack` and `sp_defense` |
| ApiLemmas.StatKeysOfPlainStats | src/data/api.py:139 | `hp`, `attack`, `defense`, `speed` keep their names |
| ApiLemmas.StatsUntouched | src/data/api.py:138-140 | a key no stat entry writes keeps its previous presence and value |
| ApiLemmas.StatsLastWins | src/data/api.py:138-140 | the value under a key is the base stat of the last entry with that key |
| DetailView.StatColor | src/ui/detail_view.py:16-28 | models `_get_stat_color`; see `DetailView.StatColorIsBandColor` and `StatBandMonotone` |
| DetailView.GenNumber | src/ui/detail_view.py:285 | the number read from a "Gen n" label; see `DetailView.GenNumberOfLabel` |
| DetailView.MoveGeneration | src/ui/detail_view.py:272-281 | the generation of a version group; see `DetailView.MoveGenerationRange` |
| DetailView.StatColorIsBandColor | src/ui/detail_view.py:16-28 | the colour of a stat is the colour of the band given by how many of 30, 60, 90, 120, 150 it reaches |
| DetailView.CountReachedMonotone | src/ui/detail_view.py:16-28 | a larger value reaches at least as many thresholds |
| DetailView.StatBandMonotone | src/ui/detail_view.py:16-28 | a higher stat never falls in a lower colour band |
| DetailView.GenNumberSplits | src/ui/detail_view.py:276-278 | after the prefix "Gen " the split has a second piece, and it is the piece the generation number is read from |
| DetailView.GenNumberOfLabel | src/ui/detail_view.py:285 | reading the number back from the label `Gen n` gives `n` (see also line 278) |
| DetailView.AllGenerationsAreLabels | src/ui/detail_view.py:95 | `ALL_GENERATIONS` is the labels of generations 1 to 9, in order |
| DetailView.GenNumberOfChoice | src/ui/detail_view.py:95 | the number of each choice is its position plus one (see also line 511) |
| DetailView.GenNumberInRange | src/ui/detail_view.py:95 | every choice yields a number from 1 to 9, and is the choice at that position (see also lines 511 and 610) |
| DetailView.TablesAgree | src/ui/detail_view.py:83-108 | every version group maps to one of the choices, and `GEN_MAX_ID` has exactly the choices as keys |
| DetailView.GenMaxIdIncreasing | src/ui/detail_view.py:98-108 | the highest species id grows with the generation |
| DetailView.MoveGenerationRange | src/ui/detail_view.py:272-281 | a move yields a generation exactly when its version group is in the table, and it is one of 1 to 9 |
| DetailView.FirstGeneration | src/ui/detail_view.py:271-281 | the result is at most every move's generation and is one of them, or 10 when no move has one |
| DetailView.SmallestGeneration | src/ui/detail_view.py:271-281 | the loop keeps the smallest generation seen so far, starting from 10, and ends with at most every generation and one of them |
| DetailView.SelectGeneration | src/ui/detail_view.py:283-299 | the generation shown is always a choice; a requested choice stays, any other request falls back to "Gen 1" |
| DetailView.DefaultSelection | src/ui/detail_view.py:283-292 | without a request the Pokémon's first generation is selected, and "Gen 9" for the default 10 |
| DetailView.SelectedNumber | src/ui/detail_view.py:511 | the number read from the selection is 1 to 9, and names the selected generation |
| DetailView.AbilitiesShown | src/ui/detail_view.py:511-519 | no abilities before generation 3; afterwards every ability except hidden ones before generation 5, in their order |
| DetailView.Without | src/ui/detail_view.py:612 | the comprehension keeps exactly the types not excluded, in order (see also line 614) |
| DetailView.AvailableTypes | src/ui/detail_view.py:609-614 | the attacking types are the table's types, without steel and dark before generation 2 and without fairy before generation 6, in table order |
| DetailView.GatedTypesLate | src/ui/detail_view.py:30-45 | none of dark, steel and fairy is among the first fifteen types of the table |
| DetailView.AvailableTypesCount | src/ui/detail_view.py:609-614 | the first fifteen types in generation 1, those plus dark and steel in generations 2 to 5, all 18 from generation 6 |
| DetailView.WithoutDarkSteel | src/ui/detail_view.py:46-48 | dropping steel and dark from the table leaves the first fifteen and fairy (see also line 612) |
| DetailView.WithoutFairy | src/ui/detail_view.py:46-48 | dropping fairy from the table leaves the first fifteen, dark and steel (see also line 614) |
| DetailView.WithoutFairyAfter | src/ui/detail_view.py:612-614 | dropping fairy after steel and dark leaves the first fifteen |
| DetailView.VarietyLabel | src/ui/detail_view.py:1045-1049 | a name without `-` is shown capitalised |
| DetailView.VarietyLabelSuffix | src/ui/detail_view.py:1046-1049 | with a `-` in the name, the label is the capitalised text after the last `-` |
| Text.LastPieceIsSuffix | src/ui/detail_view.py:1047-1049 | the last piece of a split is the suffix after the last separator, the whole string without one |
| DetailView.VarietyLabelNoDash | src/ui/detail_view.py:1045-1049 | a variety label holds no `-` |
| DetailMoves.MoveGenName | src/ui/detail_view.py:463-466 | the generation name a move is filed under; see `DetailMoves.OfGeneration` |
| DetailMoves.Kept | src/ui/detail_view.py:460-472 | the moves of a generation kept by the seen-set; see `DetailMoves.KeptProperties` |
| DetailMoves.SortLevels | src/ui/detail_view.py:736-737 | the moves stably sorted by level; see `DetailMoves.SortLevelsSorted` and `SortLevelsStable` |
| DetailMoves.OfGeneration | src/ui/detail_view.py:462-468 | exactly the moves whose generation name is the selected one |
| DetailMoves.KeptIsDedup | src/ui/detail_view.py:460-472 | the filter loop keeps the first move of each (generation, name, method, level) key among the selected generation's moves |
| DetailMoves.KeptProperties | src/ui/detail_view.py:460-472 | kept moves are of the selected generation, in list order, with pairwise different keys; every key occurs; each kept move is the first with its key |
| DetailMoves.VersionGroupDropped | src/ui/detail_view.py:469 | two moves of the same generation differing only in version group are shown once |
| DetailMoves.OfMethod | src/ui/detail_view.py:471 | a method's group holds only moves of that method (see also line 484) |
| DetailMoves.FilterMoves | src/ui/detail_view.py:460-472 | each method's group is the kept moves of that method, in order, and a method appears only once one of its moves is kept |
| DetailMoves.InsertMultiset | src/ui/detail_view.py:736-737 | inserting keeps every move, adding just the inserted one |
| DetailMoves.InsertMembers | src/ui/detail_view.py:736-737 | inserting adds no move other than the inserted one |
| DetailMoves.InsertSorted | src/ui/detail_view.py:736-737 | inserting into a level-sorted list keeps it sorted |
| DetailMoves.SortLevelsSorted | src/ui/detail_view.py:736-737 | the sort by level gives a list sorted by level that is a permutation of its input |
| DetailMoves.InsertStable | src/ui/detail_view.py:736-737 | an insertion puts the move after those of its level |
| DetailMoves.SortLevelsStable | src/ui/detail_view.py:736-737 | the sort is stable: moves of one level keep their order |
| DetailMoves.InsertAt | src/ui/detail_view.py:736-737 | inserting puts the move just after the last one of lower or equal level |
| DetailMoves.InsertLast | src/ui/detail_view.py:736-737 | the in-place step leaves the first `i + 1` cells as the insertion of cell `i` into the sorted prefix, the rest untouched |
| DetailMoves.SortByLevel | src/ui/detail_view.py:736-737 | the array ends as `SortLevels` of its old contents: sorted by level, a permutation, stable |
| Evolution.EvolutionText | src/ui/detail_view.py:778-842 | models `parse_evolution_details`; see `Evolution.DetailParts`, and `Evolution.ParseEvolutionDetails` is proved equal to it |
| Evolution.FirstAdmissible | src/ui/detail_view.py:783-801 | the position of the first detail passing the generation gates, or none when none does |
| Evolution.BestDetail | src/ui/detail_view.py:783-808 | the first detail passing the gates, or the first detail when none does |
| Evolution.Texts | src/ui/detail_view.py:811-842 | one line of text per part, in order |
| Evolution.DetailParts | src/ui/detail_view.py:809-840 | no happiness line before generation 2, no move or location line before generation 4; lines exactly when there is a trigger; a trade starts with "Trade"; another trigger is its own line |
| Evolution.FallbackText | src/ui/detail_view.py:839-842 | a trigger other than level-up, use-item and trade is shown as its name with `-` turned into spaces, capitalised |
| Evolution.LateGenerationsTakeFirst | src/ui/detail_view.py:784-801 | from generation 6 on the first detail is the one shown |
| Evolution.ParseEvolutionDetails | src/ui/detail_view.py:778-842 | no details give ""; otherwise the loop's text is `EvolutionText` |
| Evolution.DetailText | src/ui/detail_view.py:808-842 | the lines appended one by one, joined by newlines, are those of `DetailParts` |
| Evolution.LevelUpText | src/ui/detail_view.py:812-830 | the level-up lines appended one by one are those of `LevelUpParts` |
| Evolution.BuildEvoTree | src/ui/detail_view.py:844-862 | models `build_evo_tree`; see `Evolution.BuildEvoTreeSound`, `ShowsUnique`, `RootOverLimit` and `BadRootUrl` |
| Evolution.BuildChildren | src/ui/detail_view.py:858-861 | the loop over `evolves_to`; see `Evolution.BuildChildrenSound` |
| Evolution.LoadEvolutions | src/ui/detail_view.py:776 | the limit and generation number of the selection, then the tree (see also lines 864-865); see `Evolution.LoadEvolutionsOfChoice` |
| Evolution.BuildEvoTreeSound | src/ui/detail_view.py:844-862 | a built tree is within the id limit and shows the chain at every depth: each node carries its link's name, id, sprite and detail text, and its children are exactly the evolutions of that link that survive pruning, in order, each with its own pruned subtree |
| Evolution.BuildChildrenSound | src/ui/detail_view.py:858-861 | the children built are exactly the links that survive pruning, in order, each showing its link's whole pruned subtree and within the id limit |
| Evolution.ShowsUnique | src/ui/detail_view.py:844-862 | at most one tree shows a chain, so the built tree is the tree of the pruned chain |
| Evolution.KeptUnique | src/ui/detail_view.py:858-861 | at most one list of children shows the surviving evolutions of a list of links |
| Evolution.RootOverLimit | src/ui/detail_view.py:848-849 | a root species past the generation's highest id gives no tree |
| Evolution.BadRootUrl | src/ui/detail_view.py:845-846 | a root species URL without an id is an error |
| Evolution.LoadEvolutionsOfChoice | src/ui/detail_view.py:776 | for a selection among the choices, the id limit is `GEN_MAX_ID`'s and the number is the selection's (see also lines 864-865) |
| Text.ReplaceAll | src/data/api.py:170 | Python's `str.replace`; see the `Text.Replace*` lemmas |
| Text.ParseInt | src/data/database.py:311 | Python's `int` on a string; see `Text.ParseIntToString` |
| Text.Strip | src/data/api.py:73 | `strip`: the result neither starts nor ends with the character, and is a slice of the input |
| Text.StripAround | src/data/api.py:73 | stripping a leading run of the character off a string that neither starts nor ends with it gives back that string |
| Text.Split | src/data/database.py:311 | `split` always gives at least one piece |
| Text.SplitNoSep | src/data/database.py:311 | a string without the separator is one piece |
| Text.SplitConcat | src/data/database.py:311 | splitting at a separator splits its two sides independently |
| Text.IntToString | src/data/database.py:317 | `str` of an integer is non-empty and holds no `/` and a `-` only in front |
| Text.ParseIntToString | src/data/database.py:311 | `int(str(i)) == i` (see also line 317) |
| Text.Lower | src/main.py:140 | `lower` keeps the length and maps each character |
| Text.Capitalize | src/ui/detail_view.py:823 | `capitalize` upper-cases the first character and lower-cases the rest |
| Text.ReplaceCharRemoves | src/data/api.py:170 | after replacing every `c` with another character, no `c` is left |
| Text.ReplaceCharKeepsAbsent | src/data/api.py:170 | replacing one character creates no occurrence of a third |
| Text.ReplaceWholeIsEmpty | src/data/api.py:73 | removing a string from itself leaves nothing |
| Text.ReplacePrefix | src/data/api.py:139 | replacing in a string that starts with the pattern replaces that start |
| Text.ReplaceNoOccurrence | src/data/api.py:139 | a string without the pattern is left as it is |
| Collections.FirstWith | src/data/api.py:168-171 | the first position with the key, or none exactly when no element has it |
| Collections.Dedup | src/data/api.py:115-131 | a walk with a seen-set keeping the first element per key; see `Collections.DedupDistinct`, `DedupKeys`, `DedupSubseq` and `DedupKeepsFirst` |
| Collections.DedupDistinct | src/data/api.py:115-131 | the records kept with a seen-set have pairwise different keys, none seen before |
| Collections.DedupKeys | src/data/api.py:115-131 | every key not seen before is kept, and no other |
| Collections.DedupSubseq | src/data/api.py:115-131 | the kept records keep the order of the input |
| Collections.DedupKeepsFirst | src/data/api.py:115-131 | each kept record is the first with its key |
| Collections.SortedIds | src/main.py:99 | `ORDER BY id`: the ids of a set, each once, strictly ascending |
| App.Like | src/main.py:96 | SQL `LIKE` as SQLite evaluates it; see `App.LikeContains` and the other `App.Like*` lemmas |
| App.NameMatches | src/main.py:95-96 | the `ilike` filter; see `App.NameMatchesIsSubstring` |
| App.LikeAny | src/main.py:96 | a lone `%` pattern matches every name |
| App.LikePrefix | src/main.py:96 | a wildcard-free text followed by `%` matches exactly the strings that begin with it |
| App.LikeLeadingPercent | src/main.py:96 | a leading `%` lets the rest of the pattern match at any position |
| App.LowerPattern | src/main.py:96 | lower-casing `%term%` keeps the two wildcards and adds none |
| App.LikeContains | src/main.py:95-96 | the pattern `%t%` of a term without wildcards matches a string exactly when `t` occurs in it |
| App.NameMatchesIsSubstring | src/main.py:95-96 | for a term without wildcards, the case-insensitive LIKE filter holds exactly when the lower-cased term occurs in the lower-cased name |
| App.Matches | src/main.py:93-96 | the matched ids are Pokémon of the table; every one without a term, else exactly those whose name matches |
| App.Window | src/main.py:99 | OFFSET/LIMIT: at most `limit` ids, each the one `Start(offset)+k` positions in, so order is kept; a full page when enough remain, empty past the end |
| App.RowsOf | src/main.py:99 | the rows of the listed ids, in the same order |
| App.IdsOf | src/main.py:99 | the ids of a list of rows, in order |
| App.SearchQuery | src/main.py:91-102 | the count is that of all matches; the rows are matches with their table rows, in ascending id order, exactly the OFFSET/LIMIT window of the sorted matches |
| App.RequestFor | src/main.py:138-148 | the lower-cased search text, one page of rows, and for page `p >= 1` the offset `(p-1)*50` |
| App.PerformSearch | src/main.py:138-148 | the list shown for a page; see `App.MatchOnItsPage` and `PagePastTheEnd` |
| App.MatchOnItsPage | src/main.py:138-148 | the `i`-th match in id order is shown at position `i % 50` of page `i / 50 + 1`, a page the pagination buttons can reach |
| App.PagePastTheEnd | src/main.py:146-148 | a page past the last one shows no rows |
| App.Application.constructor | src/main.py:110-116 | no sync running and no notification sent |
| App.Application.StartBackgroundSync | src/main.py:110-116 | refused with the "Sync in Progress" notification while a sync runs, else the flag is set and "Update Started" sent; either way a sync is running afterwards |
| App.Application.RunSync | src/main.py:118-134 | the store ends as the background sync with progress callback leaves it, "Update Complete" is sent, the flag is cleared and the list refreshed when the main window is shown |
| MainWindow.PageLabel | src/ui/main_window.py:169 | the page label; see `MainWindow.LabelDenominator` |
| MainWindow.Enabled | src/ui/main_window.py:170-173 | the sensitivity of each page button; see `MainWindow.EnabledIffMoves` |
| MainWindow.Press | src/ui/main_window.py:175-195 | the page each handler moves to; see `MainWindow.EnabledKeepsValid`, `NextThenPrev` and `NextReachesLast` |
| MainWindow.TotalPages | src/ui/main_window.py:168 | the fewest pages of 50 holding `count` items: `(n-1)*50 < count <= n*50`, and 0 exactly for no items |
| MainWindow.LabelDenominator | src/ui/main_window.py:169 | the label's page count is at least 1, the number of pages whenever there is one |
| MainWindow.EnabledIffMoves | src/ui/main_window.py:170-195 | on a valid page a button is sensitive exactly when its handler changes the page (the last-page button on an empty list excepted) |
| MainWindow.EnabledKeepsValid | src/ui/main_window.py:170-195 | pressing a sensitive button keeps the page among the list's pages |
| MainWindow.NextThenPrev | src/ui/main_window.py:180-189 | next and previous undo each other |
| MainWindow.LastOnEmptyList | src/ui/main_window.py:173 | on an empty list the last-page handler moves to page 0, and its button is insensitive on every page from 0 up (see also lines 191-195) |
| MainWindow.NextReachesLast | src/ui/main_window.py:185-195 | pressing next while it is enabled reaches the page the last-page button goes to |
| MainWindow.Pagination.constructor | src/ui/main_window.py:89-92 | page 1 and no Pokémon counted |
| MainWindow.Pagination.UpdatePaginationUi | src/ui/main_window.py:167-173 | the label `page / max(1, pages)` and each button's sensitivity as `Enabled` says |
| MainWindow.Pagination.UpdatePokemonList | src/ui/main_window.py:152-165 | the new count is stored, the page kept, and the pagination refreshed |
| MainWindow.Pagination.OnFirstPage | src/ui/main_window.py:175-178 | the page becomes 1; the list is refreshed exactly when the page changed |
| MainWindow.Pagination.OnPrevPage | src/ui/main_window.py:180-183 | one page back unless on page 1; refreshed exactly when the page changed |
| MainWindow.Pagination.OnNextPage | src/ui/main_window.py:185-189 | one page on unless on the last page; refreshed exactly when the page changed |
| MainWindow.Pagination.OnLastPage | src/ui/main_window.py:191-195 | the page becomes the number of pages; refreshed exactly when the page changed |

## Left out

- HTTP is not modelled: sessions, timeouts, status codes and the `lru_cache` around `_fetch_data` and the detail fetchers. A fetch is a lookup in a fixed map of documents, so repeated fetches of one URL agree, as the cache makes them.
- `get_region_details`, `get_type_details` and `get_species_details` are plain fetches that nothing in the modelled core calls. Their only behaviour is the fail-soft fetch, which the map lookup already captures.
- JSON `null` and an absent key are not distinguished. A key the source reads with `[...]` is a plain field, so the `KeyError` paths are not modelled. A key read with `.get` or checked with `in` is an `Option`.
- An evolution detail's dict field (`held_item`, `item`, `known_move`, `known_move_type`, `location`) is modelled as the name inside it. An empty dict, which Python treats as false, is therefore not modelled.
- SQLAlchemy is reduced to a working state and a committed snapshot. Not modelled:
  - flush timing and `refresh`;
  - the AUTOCOMMIT isolation setting;
  - the pragmas;
  - closing the session.
  Each commit is atomic, and a refused insert (IntegrityError) is a `StoreError` that rolls back to the last commit.
- `SyncEngine.Store.UpdatePokemonData`, `ResolveRegion`, `SyncRegionsStep`, `InsertStubBatches`, `CompleteOne`, `DeepSyncLoop` and `SyncDatabase`, and `App.Application.RunSync`, require a session with nothing pending. These are the points where the source opens a session or has just committed.
- SyncEngine.Store.ApplyDetailsSteps: an error inside `update_pokemon_data` rolls back here, at the failing insert. The source rolls back in its caller's `except` branch; the committed state that results is the same.
- The error message of a refused insert is abstracted. It is "UNIQUE constraint failed: " and the table, not SQLAlchemy's full text, so `"failed: <e>"` is modelled with that text.
- The `.get` defaults in the move-join insert (`learn_method`, `level_learned_at`, `version_group`) are not modelled. They cannot take effect, because the normalizer always sets those keys.
- The `name` argument of `update_pokemon_data` is not modelled, because it is used only in printed messages. All printing is left out, the progress callback's output included; the model records the progress calls as events.
- `datetime.now()` is a clock reading passed in as `now`. `datetime.min` is a distinct timestamp value.
- Threads are not modelled: the sync thread, the search thread, `GLib.idle_add`, and the 300 ms search debounce (`search_timeout_id`). `start_background_sync` and `run_sync` are modelled as two steps run one after the other.
- App.Application.RunSync: the `except` branch that sends "Update Failed" is not modelled. `sync_database` catches every store error itself and never raises.
- GTK widgets, desktop notifications, images, theming and the home page are not modelled; a notification is a recorded (title, body) pair.
- The type-effectiveness multipliers are floating point and are not modelled; only the gating of the attacking types is. Stat bar fractions and height/weight display are left out for the same reason.
- Lower-casing and capitalising cover ASCII letters only. Python's Unicode case mapping is not modelled.
- `int()` is modelled without its tolerance of surrounding whitespace and of `_` between digits. The strings it reads here are URL pieces and generation labels.
- A negative OFFSET (page 0 after the last-page button on an empty list) is treated as 0, as SQLite does.
- Database.DeepPhase: the deep phase visits the stored Pokémon in ascending id order. The source's `session.query(Pokemon).all()` has no `ORDER BY`, so the order is SQLite's table scan, which the model assumes to be the rowid (id) order. The order decides which Pokémon are already updated when a step fails, and at which Pokémon the progress calls fall.
- AddMovesNewRows: the move id of a new join is pinned to the one the record's name resolves to only when every fetchable move of the records is a document of the name it was fetched by (`NamedAsFetched`), as PokeAPI's are. Otherwise a move created from one record's document can be found by name by a later record of another move, and the contract promises only that the id is a stored move's.
- AddMovesCover: the join row is pinned to the resolved move id only under `NamedAsFetched`, for the reason given for AddMovesNewRows.
- AddMovesEffect: the resolved move ids are stated only under `NamedAsFetched`, for the reason given for AddMovesNewRows.
- ApplyDetailsMoves: the move joins are exactly one per record, with the resolved move id, only under `NamedAsFetched`, for the reason given for AddMovesNewRows.
- UpdateReplacesJoins: the move joins are exactly one per record, with the resolved move id, only under `NamedAsFetched`, for the reason given for AddMovesNewRows.
- Evolution.BuildEvoTree: a node also records the species id. The source computes that id only to build the sprite URL and never stores it in the node.
- `_load_evolutions` is not modelled beyond choosing the id limit and the generation number. Fetching the chain and rendering the tree are left out.
- The ability list's title formatting (`replace('-', ' ').capitalize()` and the " (Hidden)" tag) and the labels shown for a generation without abilities are not modelled; only the choice of abilities is.
- The variety list's hiding when there is at most one variety, and the click handler, are UI and are left out; only the display-name rule is modelled.
