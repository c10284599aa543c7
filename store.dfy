/** The store as the application drives it: a session whose changes are
    pending until committed, and the sync engine written as the loops of
    the original, each proved to compute what the functions of `Database`
    describe. */
module SyncEngine {
  import opened Wrappers
  import opened Collections
  import opened Models
  import opened Api
  import opened Database
  import opened SyncLemmas

  /** The search loop for an ability's texts: the first English effect
      entry, or "No description." for both when there is none. */
  method FindAbilityTexts(details: Option<AbilityPayload>) returns (description: string, shortDescription: string)
    ensures (description, shortDescription) == AbilityTexts(details)
  {
    description := "No description.";
    shortDescription := "No description.";
    if details.Some? && details.value.effectEntries.Some? {
      var entries := details.value.effectEntries.value;
      var k := 0;
      while k < |entries|
        invariant 0 <= k <= |entries|
        invariant forall j :: 0 <= j < k ==> entries[j].language.name != "en"
      {
        if entries[k].language.name == "en" {
          description := entries[k].effect;
          shortDescription := entries[k].shortEffect;
          return;
        }
        k := k + 1;
      }
    }
  }

  /** The region names to add: each listed name not stored yet, in list order. */
  method CollectRegionNames(regions: seq<RegionRow>, entries: seq<NamedRef>) returns (names: seq<string>)
    ensures names == RegionsToAdd(regions, entries)
  {
    names := [];
    var i := 0;
    while i < |entries|
      invariant 0 <= i <= |entries|
      invariant names + RegionsToAdd(regions, entries[i..]) == RegionsToAdd(regions, entries)
    {
      assert entries[i..][0] == entries[i] && entries[i..][1..] == entries[i + 1..];
      if FirstWith(regions, RegionName, entries[i].name).None? {
        names := names + [entries[i].name];
      }
      i := i + 1;
    }
    assert entries[i..] == [];
  }

  /** The species loop of the sync: a stub for every new species, and a
      progress call at every hundredth index when `report` is set. */
  method CollectStubsLoop(species: seq<NamedRef>, existing: set<int>, report: bool)
    returns (stubs: seq<StubRow>, events: seq<Progress>)
    ensures stubs == CollectStubs(species, existing)
    ensures events == (if report then StrideEvents(0, |species|, 100, |species|) else [])
  {
    stubs := [];
    events := [];
    var total := |species|;
    var i := 0;
    while i < |species|
      invariant 0 <= i <= |species|
      invariant stubs == CollectStubs(species[..i], existing)
      invariant events == (if report then StrideEvents(0, i, 100, total) else [])
    {
      if report && i % 100 == 0 {
        events := events + [Progress(i, total)];
      }
      StrideEventsSnoc(0, i, 100, total);
      // the body of the loop over one entry: its id from the URL, kept when new
      stubs := stubs + EntryStub(species[i], existing);
      CollectStubsSnoc(species, i, existing);
      i := i + 1;
    }
    assert species[..i] == species;
  }

  /** The deep phase as a whole is the calls made so far followed by the
      run over the remaining ids. */
  predicate DeepProgress(goal: DeepRun, rest: DeepRun, events: seq<Progress>) {
    goal == DeepRun(rest.db, events + rest.events, rest.error)
  }

  /** An id of the deep phase whose update fails ends the phase with the
      calls made so far. */
  lemma DeepProgressFail(goal: DeepRun, db: Db, remote: Remote, ids: seq<int>, i: nat, report: bool, total: int,
                         events: seq<Progress>)
    requires i < |ids|
    requires DeepProgress(goal, DeepSync(db, remote, ids[i..], i, report, total), events)
    requires DeepStep(db, remote, ids[i]).outcome.Failed?
    ensures goal == DeepRun(DeepStep(db, remote, ids[i]).db, events, Some(DeepStep(db, remote, ids[i]).outcome.error))
  {
    DeepSyncCons(db, remote, ids[i..], i, report, total);
    assert ids[i..][0] == ids[i];
    assert events + [] == events;
  }

  /** Otherwise the phase goes on from the updated state, with this index's
      progress call added. */
  lemma DeepProgressNext(goal: DeepRun, db: Db, remote: Remote, ids: seq<int>, i: nat, report: bool, total: int,
                         prior: seq<Progress>, events: seq<Progress>, after: Db)
    requires i < |ids|
    requires DeepProgress(goal, DeepSync(db, remote, ids[i..], i, report, total), prior)
    requires !DeepStep(db, remote, ids[i]).outcome.Failed? && after == DeepStep(db, remote, ids[i]).db
    requires events == prior + (if report && i % 10 == 0 then [Progress(i, total)] else [])
    ensures DeepProgress(goal, DeepSync(after, remote, ids[i + 1..], i + 1, report, total), events)
  {
    DeepSyncCons(db, remote, ids[i..], i, report, total);
    assert ids[i..][0] == ids[i] && ids[i..][1..] == ids[i + 1..];
    var here: seq<Progress> := if report && i % 10 == 0 then [Progress(i, total)] else [];
    AppendAssoc(prior, here, DeepSync(after, remote, ids[i + 1..], i + 1, report, total).events);
  }

  class Store {
    /** What the session sees: the committed state and the pending changes. */
    var working: Db
    /** What the database file holds. */
    var committed: Db

    constructor (db: Db)
      ensures working == db && committed == db
    {
      working := db;
      committed := db;
    }

    /** `session.commit()`. */
    method Commit()
      modifies this
      ensures committed == old(working) && working == old(working)
    {
      committed := working;
    }

    /** `session.rollback()`: the pending changes are dropped. */
    method Rollback()
      modifies this
      ensures working == old(committed) && committed == old(committed)
    {
      working := committed;
    }

    /** `add_to_db(session, Region(name=name))`: committed with everything
      pending, or rolled back when the name is taken. */
    method AddRegion(name: string) returns (added: bool)
      modifies this
      ensures added <==> AddRegionToDb(old(working), name).Some?
      ensures added ==> working == AddRegionToDb(old(working), name).value && committed == working
      ensures !added ==> working == old(committed) && committed == old(committed)
    {
      if FirstWith(working.regions, RegionName, name).Some? {
        Rollback();
        return false;
      }
      working := working.(regions := working.regions + [RegionRow(|working.regions| + 1, name)]);
      Commit();
      return true;
    }

    /** `add_all_to_db(session, [Region(name=n) for n in names])`. */
    method AddAllRegionsToDb(names: seq<string>) returns (added: bool)
      modifies this
      ensures added <==> AddAllRegions(old(working), names).Some?
      ensures added ==> working == AddAllRegions(old(working), names).value && committed == working
      ensures !added ==> working == old(committed) && committed == old(committed)
    {
      if HasDuplicates(names) || exists k :: 0 <= k < |names| && FirstWith(working.regions, RegionName, names[k]).Some? {
        Rollback();
        return false;
      }
      working := working.(regions := working.regions + NewRegionRows(|working.regions|, names));
      Commit();
      return true;
    }

    /** The type loop of `update_pokemon_data`; a broken key rolls back. */
    method AddTypeRows(pid: int, slots: seq<TypeSlot>) returns (error: Option<StoreError>)
      modifies this
      ensures error.None? <==> AddTypes(old(working), pid, slots).Success?
      ensures error.None? ==> working == AddTypes(old(working), pid, slots).value && committed == old(committed)
      ensures error.Some? ==> error.value == AddTypes(old(working), pid, slots).error
      ensures error.Some? ==> working == old(committed) && committed == old(committed)
    {
      ghost var start := working;
      var i := 0;
      while i < |slots|
        invariant 0 <= i <= |slots|
        invariant AddTypes(start, pid, slots) == AddTypes(working, pid, slots[i..])
        invariant committed == old(committed)
      {
        assert slots[i..][0] == slots[i] && slots[i..][1..] == slots[i + 1..];
        var r := LookupOrCreateType(working, slots[i].typeRef.name);
        var row := PokemonTypeRow(pid, r.1);
        if row in r.0.pokemonTypes {
          Rollback();
          return Some(UniqueViolation("pokemon_types"));
        }
        working := r.0.(pokemonTypes := r.0.pokemonTypes + {row});
        i := i + 1;
      }
      assert slots[i..] == [];
      return None;
    }

    /** The ability loop of `update_pokemon_data`: an ability missing from
      the store is created from its remote document. */
    method AddAbilityRows(remote: Remote, pid: int, slots: seq<AbilitySlot>) returns (error: Option<StoreError>)
      modifies this
      ensures error.None? <==> AddAbilities(old(working), remote, pid, slots).Success?
      ensures error.None? ==> working == AddAbilities(old(working), remote, pid, slots).value && committed == old(committed)
      ensures error.Some? ==> error.value == AddAbilities(old(working), remote, pid, slots).error
      ensures error.Some? ==> working == old(committed) && committed == old(committed)
    {
      ghost var start := working;
      var i := 0;
      while i < |slots|
        invariant 0 <= i <= |slots|
        invariant AddAbilities(start, remote, pid, slots) == AddAbilities(working, remote, pid, slots[i..])
        invariant committed == old(committed)
      {
        assert slots[i..][0] == slots[i] && slots[i..][1..] == slots[i + 1..];
        var aid := AbilityIdFor(remote, slots[i].ability.name);
        if HasAbilityKey(working.pokemonAbilities, pid, aid) {
          Rollback();
          return Some(UniqueViolation("pokemon_abilities"));
        }
        working := working.(pokemonAbilities := working.pokemonAbilities + {AbilityJoin(pid, aid, slots[i])});
        i := i + 1;
      }
      assert slots[i..] == [];
      return None;
    }

    /** The ability looked up by name, else created from its remote
        document with the texts of `FindAbilityTexts`. */
    method AbilityIdFor(remote: Remote, name: string) returns (aid: int)
      modifies this
      ensures (working, aid) == LookupOrCreateAbility(old(working), remote, name)
      ensures committed == old(committed)
    {
      var found := FirstWith(working.abilities, AbilityName, name);
      if found.Some? {
        aid := working.abilities[found.value].id;
      } else {
        var description, shortDescription := FindAbilityTexts(GetAbilityDetails(remote, name));
        aid := |working.abilities| + 1;
        working := working.(abilities := working.abilities + [AbilityRow(aid, name, description, shortDescription)]);
      }
    }

    /** One record of the move loop: the move is looked up, else fetched and
      created with its type; the join row follows when there is a move. */
    method AddMoveRow(remote: Remote, pid: int, rec: MoveRecord) returns (error: Option<StoreError>)
      modifies this
      ensures error.None? <==> AddMove(old(working), remote, pid, rec).Success?
      ensures error.None? ==> working == AddMove(old(working), remote, pid, rec).value && committed == old(committed)
      ensures error.Some? ==> error.value == AddMove(old(working), remote, pid, rec).error
      ensures error.Some? ==> working == old(committed) && committed == old(committed)
    {
      var moveId: Option<int> := None;
      var found := FirstWith(working.moves, MoveName, rec.name);
      if found.Some? {
        moveId := Some(working.moves[found.value].id);
      } else {
        var details := GetMoveDetails(remote, rec.name);
        if details.Some? {
          var m := details.value;
          var r := LookupOrCreateType(working, m.typeRef.name);
          var row := MoveRowOf(m, r.1);
          if MoveClashes(r.0.moves, row) {
            Rollback();
            return Some(UniqueViolation("moves"));
          }
          working := r.0.(moves := r.0.moves + [row]);
          moveId := Some(m.id);
        }
      }
      if moveId.Some? {
        var join := MoveJoin(pid, moveId.value, rec);
        if join in working.pokemonMoves {
          Rollback();
          return Some(UniqueViolation("pokemon_moves"));
        }
        working := working.(pokemonMoves := working.pokemonMoves + {join});
      }
      return None;
    }

    /** The move loop of `update_pokemon_data`. */
    method AddMoveRows(remote: Remote, pid: int, recs: seq<MoveRecord>) returns (error: Option<StoreError>)
      modifies this
      ensures error.None? <==> AddMoves(old(working), remote, pid, recs).Success?
      ensures error.None? ==> working == AddMoves(old(working), remote, pid, recs).value && committed == old(committed)
      ensures error.Some? ==> error.value == AddMoves(old(working), remote, pid, recs).error
      ensures error.Some? ==> working == old(committed) && committed == old(committed)
    {
      ghost var start := working;
      var i := 0;
      while i < |recs|
        invariant 0 <= i <= |recs|
        invariant AddMoves(start, remote, pid, recs) == AddMoves(working, remote, pid, recs[i..])
        invariant committed == old(committed)
      {
        assert recs[i..][0] == recs[i] && recs[i..][1..] == recs[i + 1..];
        error := AddMoveRow(remote, pid, recs[i]);
        if error.Some? {
          return;
        }
        i := i + 1;
      }
      assert recs[i..] == [];
      return None;
    }

    /** `update_pokemon_data(session, id, pokemon_url)` on a session with
      nothing pending. The region is committed as soon as it is created;
      everything else is committed at the end, or rolled back on an error. */
    method UpdatePokemonData(remote: Remote, id: int, pokemonUrl: Option<string>) returns (outcome: UpdateOutcome)
      requires working == committed
      modifies this
      ensures outcome == UpdateSpec(old(working), remote, id, pokemonUrl).outcome
      ensures committed == UpdateSpec(old(working), remote, id, pokemonUrl).db && working == committed
    {
      ghost var db := working;
      if Complete(working, id) {
        return AlreadyComplete;
      }
      var details := GetPokemonDetails(remote, Some(ById(id)), pokemonUrl);
      if details.None? {
        return NoDetails;
      }
      var d := details.value;
      var regionId := ResolveRegion(d.regionName);
      var error := ApplyDetailsSteps(remote, id, d, regionId);
      if error.Some? {
        return Failed(error.value);
      }
      Commit();
      return Updated;
    }

    /** The region of the record: looked up by name, else created and
      committed at once; none for a missing or empty name. */
    method ResolveRegion(regionName: Option<string>) returns (regionId: Option<int>)
      requires working == committed
      modifies this
      ensures (working, regionId) == RegionFor(old(working), regionName) && committed == working
    {
      regionId := None;
      if regionName.Some? && regionName.value != "" {
        var name := regionName.value;
        var found := FirstWith(working.regions, RegionName, name);
        if found.Some? {
          regionId := Some(working.regions[found.value].id);
        } else {
          var added := AddRegion(name);
          regionId := Some(|working.regions|);
        }
      }
    }

    /** The row overwritten, then each kind of join row deleted and
      re-inserted; on an error the pending changes are rolled back. */
    method ApplyDetailsSteps(remote: Remote, id: int, d: Details, regionId: Option<int>) returns (error: Option<StoreError>)
      modifies this
      ensures error.None? <==> ApplyDetails(old(working), remote, id, d, regionId).Success?
      ensures error.None? ==> working == ApplyDetails(old(working), remote, id, d, regionId).value && committed == old(committed)
      ensures error.Some? ==> error.value == ApplyDetails(old(working), remote, id, d, regionId).error
      ensures error.Some? ==> working == old(committed) && committed == old(committed)
    {
      working := working.(pokemon := working.pokemon[id := PokemonRowOf(d, regionId)]);
      working := working.(pokemonTypes := WithoutTypesOf(working.pokemonTypes, id));
      error := AddTypeRows(id, d.types);
      if error.Some? {
        return;
      }
      working := working.(pokemonAbilities := WithoutAbilitiesOf(working.pokemonAbilities, id));
      error := AddAbilityRows(remote, id, d.abilities);
      if error.Some? {
        return;
      }
      working := working.(pokemonMoves := WithoutMovesOf(working.pokemonMoves, id));
      error := AddMoveRows(remote, id, d.detailedMoves);
    }

    /** Step 1 of the sync: the listed regions the store lacks, in one commit. */
    method SyncRegionsStep(remote: Remote)
      requires working == committed
      modifies this
      ensures working == SyncRegions(old(working), remote) && committed == working
    {
      var names := CollectRegionNames(working.regions, GetRegions(remote));
      if names != [] {
        var added := AddAllRegionsToDb(names);
      }
    }

    /** Step 2 of the sync, the inserts: the stubs in slices of `BatchSize`,
      each committed on its own; a failed slice is rolled back and stops
      the step. */
    method InsertStubBatches(stubs: seq<StubRow>) returns (error: Option<StoreError>)
      requires working == committed
      modifies this
      ensures InsertBatches(old(working), Batches(stubs)) == BatchRun(committed, error) && working == committed
    {
      ghost var start := working;
      var i := 0;
      while i < |stubs|
        invariant 0 <= i <= |stubs|
        invariant InsertBatches(start, Batches(stubs)) == InsertBatches(working, Batches(stubs[i..]))
        invariant working == committed
        decreases |stubs| - i
      {
        var end := if i + BatchSize <= |stubs| then i + BatchSize else |stubs|;
        var batch := stubs[i..end];
        assert Batches(stubs[i..]) == [batch] + Batches(stubs[end..]) by {
          assert stubs[i..][..end - i] == batch;
          assert stubs[i..][end - i..] == stubs[end..];
        }
        assert ([batch] + Batches(stubs[end..]))[0] == batch;
        assert ([batch] + Batches(stubs[end..]))[1..] == Batches(stubs[end..]);
        var r := InsertBatch(working, batch);
        if r.Failure? {
          Rollback();
          return Some(r.error);
        }
        working := r.value;
        Commit();
        i := end;
      }
      assert stubs[i..] == [];
      return None;
    }

    /** One id of the deep phase: a Pokémon that is not complete is updated. */
    method CompleteOne(remote: Remote, id: int) returns (outcome: UpdateOutcome)
      requires working == committed
      modifies this
      ensures UpdateResult(outcome, working) == DeepStep(old(working), remote, id) && working == committed
    {
      outcome := AlreadyComplete;
      if !Complete(working, id) {
        outcome := UpdatePokemonData(remote, id, None);
      }
    }

    /** Step 3 of the sync: every stored Pokémon in ascending id order is
      updated when incomplete, and a progress call is made at every tenth
      index when there is a callback. An error stops the step. */
    method DeepSyncLoop(remote: Remote, hasCallback: bool) returns (events: seq<Progress>, error: Option<StoreError>)
      requires working == committed
      modifies this
      ensures DeepPhase(old(working), remote, hasCallback) == DeepRun(committed, events, error) && working == committed
    {
      var ids := SortedIds(working.pokemon.Keys);
      events, error := DeepSyncIds(remote, ids, hasCallback, |ids|);
    }

    /** The loop of step 3 over the listed ids, counted from index 0 out of `total`. */
    method DeepSyncIds(remote: Remote, ids: seq<int>, hasCallback: bool, total: int)
      returns (events: seq<Progress>, error: Option<StoreError>)
      requires working == committed
      modifies this
      ensures DeepSync(old(working), remote, ids, 0, hasCallback, total) == DeepRun(committed, events, error)
      ensures working == committed
    {
      ghost var goal := DeepSync(working, remote, ids, 0, hasCallback, total);
      assert ids[0..] == ids;
      events := [];
      var i := 0;
      while i < |ids|
        invariant 0 <= i <= |ids|
        invariant working == committed
        invariant DeepProgress(goal, DeepSync(working, remote, ids[i..], i, hasCallback, total), events)
      {
        ghost var before := working;
        var outcome := CompleteOne(remote, ids[i]);
        if outcome.Failed? {
          DeepProgressFail(goal, before, remote, ids, i, hasCallback, total, events);
          return events, Some(outcome.error);
        }
        ghost var prior := events;
        if hasCallback && i % 10 == 0 {
          events := events + [Progress(i, total)];
        }
        DeepProgressNext(goal, before, remote, ids, i, hasCallback, total, prior, events, working);
        i := i + 1;
      }
      assert ids[i..] == [];
      return events, None;
    }

    /** `sync_database(background, progress_callback)` with the clock reading
      `now`, on a session with nothing pending. The progress calls made are
      returned; an error is recorded in the sync record and not raised. */
    method SyncDatabase(remote: Remote, background: bool, hasCallback: bool, now: int) returns (events: seq<Progress>)
      requires working == committed
      modifies this
      ensures committed == SyncSpec(old(working), remote, background, hasCallback, now).db && working == committed
      ensures events == SyncSpec(old(working), remote, background, hasCallback, now).events
    {
      ghost var db := working;
      if working.syncInfo.None? {
        working := working.(syncInfo := Some(SyncInfo(MinTime, "in_progress")));
        Commit();
      }
      assert working == EnsureSyncInfo(db);
      SyncRegionsStep(remote);
      var species := GetAllPokemonSpeciesNames(remote);
      var stubs;
      stubs, events := CollectStubsLoop(species, working.pokemon.Keys, background && hasCallback);
      var error := InsertStubBatches(stubs);
      assert StubPhase(db, remote) == BatchRun(working, error);
      StubPhaseEffect(db, remote);
      if error.None? && background {
        ghost var b := working;
        var deepEvents;
        deepEvents, error := DeepSyncLoop(remote, hasCallback);
        DeepKeepsSyncInfo(b, remote, SortedIds(b.pokemon.Keys), 0, hasCallback, |b.pokemon.Keys|);
        events := events + deepEvents;
      }
      RecordOutcome(error, now);
    }

    /** The end of `sync_database`: "success" stamped with the clock and
        committed, or what is pending rolled back and "failed: " and the
        error committed on the sync record. */
    method RecordOutcome(error: Option<StoreError>, now: int)
      requires committed.syncInfo.Some?
      modifies this
      ensures error.None? ==> committed == Succeeded(old(working), now)
      ensures error.Some? ==> committed == FailedWith(old(committed), old(committed).syncInfo.value, error.value)
      ensures working == committed
    {
      if error.None? {
        working := Succeeded(working, now);
        Commit();
      } else {
        Rollback();
        working := FailedWith(working, working.syncInfo.value, error.value);
        Commit();
      }
    }
  }
}
