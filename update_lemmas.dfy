/** Properties of `update_pokemon_data` as a whole: when it does nothing,
    what it leaves for the Pokémon it updates and for every other one, that
    the schema's constraints survive it, and that full details make a
    Pokémon complete. */
module UpdateLemmas {
  import opened Wrappers
  import opened Collections
  import opened Models
  import opened Api
  import opened Database
  import opened DatabaseLemmas

  // ---------------------------------------------------------------------
  // The completeness test

  /** `is_pokemon_data_complete` is false exactly in the listed cases. */
  lemma CompleteIff(p: Option<PokemonRecord>)
    ensures IsPokemonDataComplete(p) <==>
      && p.Some?
      && p.value.row.description.Some? && p.value.row.height.Some? && p.value.row.weight.Some?
      && p.value.row.spriteUrl.Some? && p.value.row.artworkUrl.Some?
      && p.value.row.hp.Some? && p.value.row.attack.Some? && p.value.row.defense.Some?
      && p.value.row.specialAttack.Some? && p.value.row.specialDefense.Some? && p.value.row.speed.Some?
      && p.value.types != {} && p.value.abilities != {} && p.value.moves != {}
      && p.value.region.Some?
  {
    if p.Some? {
      var flags := CriticalFieldsPresent(p.value.row);
      assert (exists i :: 0 <= i < |flags| && !flags[i]) <==>
        !(flags[0] && flags[1] && flags[2] && flags[3] && flags[4] && flags[5] &&
          flags[6] && flags[7] && flags[8] && flags[9] && flags[10]);
    }
  }

  /** A stub is never complete: it has no description. */
  lemma StubIncomplete(db: Db, id: int, name: string, speciesUrl: string, spriteUrl: string)
    requires id in db.pokemon && db.pokemon[id] == Stub(name, speciesUrl, spriteUrl)
    ensures !Complete(db, id)
  {
    CompleteIff(Record(db, id));
  }

  // ---------------------------------------------------------------------
  // When the update changes nothing

  /** A complete Pokémon is returned as it is, without a fetch. */
  lemma UpdateSkipsComplete(db: Db, remote: Remote, id: int, url: Option<string>)
    requires Complete(db, id)
    ensures UpdateSpec(db, remote, id, url) == UpdateResult(AlreadyComplete, db)
  {
  }

  /** When the details cannot be fetched the result is None and the store
      is left as it was. */
  lemma UpdateWithoutDetails(db: Db, remote: Remote, id: int, url: Option<string>)
    requires !Complete(db, id) && DetailsSpec(remote, Some(ById(id)), url).None?
    ensures UpdateSpec(db, remote, id, url) == UpdateResult(NoDetails, db)
  {
  }

  /** Without a URL, id 0 counts as no id at all: nothing is fetched. */
  lemma UpdateOfIdZero(db: Db, remote: Remote)
    requires !Complete(db, 0)
    ensures UpdateSpec(db, remote, 0, None) == UpdateResult(NoDetails, db)
  {
  }

  /** When writing the details fails, only the region committed before
      them stays. */
  lemma UpdateFailureKeepsRegionOnly(db: Db, remote: Remote, id: int, url: Option<string>)
    requires UpdateSpec(db, remote, id, url).outcome.Failed?
    ensures DetailsSpec(remote, Some(ById(id)), url).Some?
    ensures UpdateSpec(db, remote, id, url).db == RegionFor(db, DetailsSpec(remote, Some(ById(id)), url).value.regionName).0
  {
  }

  // ---------------------------------------------------------------------
  // What an update leaves

  /** The region step then the rest, unfolded. */
  lemma UpdatedUnfold(db: Db, remote: Remote, id: int, url: Option<string>)
    requires UpdateSpec(db, remote, id, url).outcome == Updated
    ensures DetailsSpec(remote, Some(ById(id)), url).Some?
    ensures var d := DetailsSpec(remote, Some(ById(id)), url).value;
      var r := RegionFor(db, d.regionName);
      ApplyDetails(r.0, remote, id, d, r.1) == Success(UpdateSpec(db, remote, id, url).db)
  {
  }

  /** After an update the row holds the fetched details; its type and
      ability rows are exactly one per slot of the details and its move rows
      come from the details' learnable moves, with one for every move that
      was stored or can be fetched (exactly one per record, for the move its
      name resolves to, when the fetched moves carry the names they were
      fetched by); nothing from an earlier update survives. */
  lemma UpdateReplacesJoins(db: Db, remote: Remote, id: int, url: Option<string>)
    requires UpdateSpec(db, remote, id, url).outcome == Updated
    ensures DetailsSpec(remote, Some(ById(id)), url).Some?
    ensures var d := DetailsSpec(remote, Some(ById(id)), url).value;
      var db' := UpdateSpec(db, remote, id, url).db;
      && id in db'.pokemon
      && db'.pokemon[id] == PokemonRowOf(d, RegionFor(db, d.regionName).1)
      && (forall t: PokemonTypeRow :: t.pokemonId == id ==>
            (t in db'.pokemonTypes <==> exists k :: 0 <= k < |d.types| && t == TypeJoin(db'.types, id, d.types[k])))
      && (forall a: PokemonAbilityRow :: a.pokemonId == id ==>
            (a in db'.pokemonAbilities <==>
               exists k :: 0 <= k < |d.abilities| && a == AbilityJoinOf(db'.abilities, id, d.abilities[k])))
      && (forall m :: m in db'.pokemonMoves && m.pokemonId == id ==>
            m.moveId in MoveIds(db'.moves) &&
            exists k :: 0 <= k < |d.detailedMoves| && m == MoveJoin(id, m.moveId, d.detailedMoves[k]))
      && (forall k :: (0 <= k < |d.detailedMoves| &&
            (FirstWith(db.moves, MoveName, d.detailedMoves[k].name).Some? ||
             GetMoveDetails(remote, d.detailedMoves[k].name).Some?)) ==>
            exists x :: MoveJoin(id, x, d.detailedMoves[k]) in db'.pokemonMoves)
      && (NamedAsFetched(remote, d.detailedMoves) ==>
            forall m: PokemonMoveRow :: m.pokemonId == id ==>
              (m in db'.pokemonMoves <==> MoveJoinOfRecords(db.moves, remote, id, d.detailedMoves, m)))
  {
    UpdatedUnfold(db, remote, id, url);
    var d := DetailsSpec(remote, Some(ById(id)), url).value;
    var r := RegionFor(db, d.regionName);
    var db' := UpdateSpec(db, remote, id, url).db;
    RegionForEffect(db, d.regionName);
    ApplyDetailsFrame(r.0, remote, id, d, r.1, db');
    ApplyDetailsTypes(r.0, remote, id, d, r.1, db');
    ApplyDetailsAbilities(r.0, remote, id, d, r.1, db');
    ApplyDetailsMoves(r.0, remote, id, d, r.1, db');
  }

  /** `other`'s row and join rows are as they were in `db`, the named
      tables have only grown, and the sync record is the same. */
  ghost predicate Untouched(db: Db, db': Db, other: int) {
    && (other in db'.pokemon <==> other in db.pokemon)
    && (other in db.pokemon ==> db'.pokemon[other] == db.pokemon[other])
    && (forall t: PokemonTypeRow :: t.pokemonId == other ==> (t in db'.pokemonTypes <==> t in db.pokemonTypes))
    && (forall a: PokemonAbilityRow :: a.pokemonId == other ==> (a in db'.pokemonAbilities <==> a in db.pokemonAbilities))
    && (forall m: PokemonMoveRow :: m.pokemonId == other ==> (m in db'.pokemonMoves <==> m in db.pokemonMoves))
    && Prefix(db.regions, db'.regions) && Prefix(db.types, db'.types)
    && Prefix(db.abilities, db'.abilities) && Prefix(db.moves, db'.moves)
    && db'.syncInfo == db.syncInfo
  }

  /** An update touches no other Pokémon: its row and its join rows stay,
      and the named tables only grow. */
  lemma UpdateFrame(db: Db, remote: Remote, id: int, url: Option<string>, other: int)
    requires other != id
    ensures Untouched(db, UpdateSpec(db, remote, id, url).db, other)
  {
    var mid, step := UpdateStages(db, remote, id, url);
    if step.Some? {
      var db' := UpdateSpec(db, remote, id, url).db;
      ApplyDetailsFrame(mid, remote, id, step.value.0, step.value.1, db');
      ApplyLeavesOthers(db, mid, db', id, PokemonRowOf(step.value.0, step.value.1), other);
    }
  }

  /** Writing one Pokémon's row and join rows after the region step leaves
      every other Pokémon untouched. */
  lemma ApplyLeavesOthers(db: Db, mid: Db, db': Db, id: int, row: PokemonRow, other: int)
    requires other != id
    requires mid == db.(regions := mid.regions) && Prefix(db.regions, mid.regions)
    requires db'.regions == mid.regions && db'.syncInfo == mid.syncInfo
    requires db'.pokemon == mid.pokemon[id := row]
    requires Prefix(mid.types, db'.types) && Prefix(mid.abilities, db'.abilities) && Prefix(mid.moves, db'.moves)
    requires forall t: PokemonTypeRow :: t.pokemonId != id ==> (t in db'.pokemonTypes <==> t in mid.pokemonTypes)
    requires forall a: PokemonAbilityRow :: a.pokemonId != id ==> (a in db'.pokemonAbilities <==> a in mid.pokemonAbilities)
    requires forall m: PokemonMoveRow :: m.pokemonId != id ==> (m in db'.pokemonMoves <==> m in mid.pokemonMoves)
    ensures Untouched(db, db', other)
  {
    PrefixTrans(db.types, mid.types, db'.types);
    PrefixTrans(db.abilities, mid.abilities, db'.abilities);
    PrefixTrans(db.moves, mid.moves, db'.moves);
  }

  /** An update either leaves the store as the region step left it, or
      writes the fetched details over what the region step left. */
  lemma UpdateStages(db: Db, remote: Remote, id: int, url: Option<string>)
      returns (mid: Db, step: Option<(Details, Option<int>)>)
    ensures mid == db.(regions := mid.regions) && Prefix(db.regions, mid.regions)
    ensures step.None? ==> UpdateSpec(db, remote, id, url).db == mid
    ensures step.Some? ==>
      ApplyDetails(mid, remote, id, step.value.0, step.value.1) == Success(UpdateSpec(db, remote, id, url).db)
  {
    var res := UpdateSpec(db, remote, id, url);
    mid, step := db, None;
    if res.outcome == Updated || res.outcome.Failed? {
      var d := DetailsSpec(remote, Some(ById(id)), url).value;
      var r := RegionFor(db, d.regionName);
      RegionForEffect(db, d.regionName);
      mid := r.0;
      if res.outcome == Updated {
        UpdatedUnfold(db, remote, id, url);
        step := Some((d, r.1));
      }
    }
  }

  // ---------------------------------------------------------------------
  // The constraints survive an update

  /** Writing the details keeps the named tables valid. */
  lemma ApplyDetailsTablesValid(db: Db, remote: Remote, pid: int, d: Details, regionId: Option<int>, db': Db)
    requires DbValid(db)
    requires ApplyDetails(db, remote, pid, d, regionId) == Success(db')
    ensures RegionsValid(db'.regions) && TypesValid(db'.types) && AbilitiesValid(db'.abilities) && MovesValid(db')
  {
    var db1 := db.(pokemon := db.pokemon[pid := PokemonRowOf(d, regionId)]);
    var s2 := db1.(pokemonTypes := WithoutTypesOf(db1.pokemonTypes, pid));
    var db2 := AddTypes(s2, pid, d.types).value;
    AddTypesFrame(s2, pid, d.types, db2);
    var s3 := db2.(pokemonAbilities := WithoutAbilitiesOf(db2.pokemonAbilities, pid));
    var db3 := AddAbilities(s3, remote, pid, d.abilities).value;
    AddAbilitiesFrame(s3, remote, pid, d.abilities, db3);
    var s4 := db3.(pokemonMoves := WithoutMovesOf(db3.pokemonMoves, pid));
    assert AddMoves(s4, remote, pid, d.detailedMoves) == Success(db');
    AddMovesEffect(s4, remote, pid, d.detailedMoves, db');
    assert MovesValid(s4);
  }

  /** Writing the details keeps the region of every Pokémon a stored one,
      given a region id that refers to a stored region. */
  lemma ApplyDetailsRegionLinks(db: Db, remote: Remote, pid: int, d: Details, regionId: Option<int>, db': Db)
    requires DbValid(db) && (regionId.Some? ==> 1 <= regionId.value <= |db.regions|)
    requires ApplyDetails(db, remote, pid, d, regionId) == Success(db')
    ensures forall p :: p in db'.pokemon && db'.pokemon[p].regionId.Some? ==>
      1 <= db'.pokemon[p].regionId.value <= |db'.regions|
  {
    ApplyDetailsFrame(db, remote, pid, d, regionId, db');
  }

  /** Every type join afterwards refers to a stored Pokémon and type. */
  lemma ApplyDetailsTypeLinks(db: Db, remote: Remote, pid: int, d: Details, regionId: Option<int>, db': Db)
    requires DbValid(db)
    requires ApplyDetails(db, remote, pid, d, regionId) == Success(db')
    ensures forall t :: t in db'.pokemonTypes ==> t.pokemonId in db'.pokemon && 1 <= t.typeId <= |db'.types|
  {
    ApplyDetailsFrame(db, remote, pid, d, regionId, db');
    ApplyDetailsTypes(db, remote, pid, d, regionId, db');
    ApplyDetailsTablesValid(db, remote, pid, d, regionId, db');
    forall t | t in db'.pokemonTypes ensures t.pokemonId in db'.pokemon && 1 <= t.typeId <= |db'.types| {
      if t.pokemonId == pid {
        var k :| 0 <= k < |d.types| && t == TypeJoin(db'.types, pid, d.types[k]);
        IdOfInRange(db'.types, TypeName, TypeKey, d.types[k].typeRef.name);
      } else {
        assert t in db.pokemonTypes;
      }
    }
  }

  /** Every ability join afterwards refers to a stored Pokémon and ability. */
  lemma ApplyDetailsAbilityLinks(db: Db, remote: Remote, pid: int, d: Details, regionId: Option<int>, db': Db)
    requires DbValid(db)
    requires ApplyDetails(db, remote, pid, d, regionId) == Success(db')
    ensures forall a :: a in db'.pokemonAbilities ==> a.pokemonId in db'.pokemon && 1 <= a.abilityId <= |db'.abilities|
  {
    ApplyDetailsFrame(db, remote, pid, d, regionId, db');
    ApplyDetailsAbilities(db, remote, pid, d, regionId, db');
    ApplyDetailsTablesValid(db, remote, pid, d, regionId, db');
    forall a | a in db'.pokemonAbilities ensures a.pokemonId in db'.pokemon && 1 <= a.abilityId <= |db'.abilities| {
      if a.pokemonId == pid {
        var k :| 0 <= k < |d.abilities| && a == AbilityJoinOf(db'.abilities, pid, d.abilities[k]);
        IdOfInRange(db'.abilities, AbilityName, AbilityKey, d.abilities[k].ability.name);
      } else {
        assert a in db.pokemonAbilities;
      }
    }
  }

  /** Every move join afterwards refers to a stored Pokémon and move. */
  lemma ApplyDetailsMoveLinks(db: Db, remote: Remote, pid: int, d: Details, regionId: Option<int>, db': Db)
    requires DbValid(db)
    requires ApplyDetails(db, remote, pid, d, regionId) == Success(db')
    ensures forall m :: m in db'.pokemonMoves ==> m.pokemonId in db'.pokemon && m.moveId in MoveIds(db'.moves)
  {
    ApplyDetailsFrame(db, remote, pid, d, regionId, db');
    ApplyDetailsMoves(db, remote, pid, d, regionId, db');
    MoveIdsGrow(db.moves, db'.moves);
    forall m | m in db'.pokemonMoves ensures m.pokemonId in db'.pokemon && m.moveId in MoveIds(db'.moves) {
      if m.pokemonId != pid {
        assert m in db.pokemonMoves;
      }
    }
  }

  /** Writing the details keeps the key of `pokemon_abilities` unique. */
  lemma ApplyDetailsAbilityKeys(db: Db, remote: Remote, pid: int, d: Details, regionId: Option<int>, db': Db)
    requires AbilityKeysUnique(db.pokemonAbilities)
    requires ApplyDetails(db, remote, pid, d, regionId) == Success(db')
    ensures AbilityKeysUnique(db'.pokemonAbilities)
  {
    var db1 := db.(pokemon := db.pokemon[pid := PokemonRowOf(d, regionId)]);
    var s2 := db1.(pokemonTypes := WithoutTypesOf(db1.pokemonTypes, pid));
    var db2 := AddTypes(s2, pid, d.types).value;
    AddTypesFrame(s2, pid, d.types, db2);
    var s3 := db2.(pokemonAbilities := WithoutAbilitiesOf(db2.pokemonAbilities, pid));
    var db3 := AddAbilities(s3, remote, pid, d.abilities).value;
    assert AbilityKeysUnique(s3.pokemonAbilities);
    AddAbilitiesFresh(s3, remote, pid, d.abilities, db3);
    var s4 := db3.(pokemonMoves := WithoutMovesOf(db3.pokemonMoves, pid));
    assert AddMoves(s4, remote, pid, d.detailedMoves) == Success(db');
    AddMovesEffect(s4, remote, pid, d.detailedMoves, db');
  }

  /** Writing the details keeps every constraint of the schema. */
  lemma ApplyDetailsValid(db: Db, remote: Remote, pid: int, d: Details, regionId: Option<int>, db': Db)
    requires DbValid(db) && (regionId.Some? ==> 1 <= regionId.value <= |db.regions|)
    requires ApplyDetails(db, remote, pid, d, regionId) == Success(db')
    ensures DbValid(db')
  {
    ApplyDetailsTablesValid(db, remote, pid, d, regionId, db');
    ApplyDetailsRegionLinks(db, remote, pid, d, regionId, db');
    ApplyDetailsTypeLinks(db, remote, pid, d, regionId, db');
    ApplyDetailsAbilityLinks(db, remote, pid, d, regionId, db');
    ApplyDetailsMoveLinks(db, remote, pid, d, regionId, db');
    ApplyDetailsAbilityKeys(db, remote, pid, d, regionId, db');
  }

  /** An update keeps every constraint of the schema; in particular no
      region, type, ability or move name is ever stored twice. */
  lemma UpdateKeepsValid(db: Db, remote: Remote, id: int, url: Option<string>)
    requires DbValid(db)
    ensures DbValid(UpdateSpec(db, remote, id, url).db)
  {
    var res := UpdateSpec(db, remote, id, url);
    if res.outcome == Updated || res.outcome.Failed? {
      var d := DetailsSpec(remote, Some(ById(id)), url).value;
      var r := RegionFor(db, d.regionName);
      RegionForEffect(db, d.regionName);
      assert DbValid(r.0);
      if res.outcome == Updated {
        UpdatedUnfold(db, remote, id, url);
        ApplyDetailsValid(r.0, remote, id, d, r.1, res.db);
      }
    }
  }

  // ---------------------------------------------------------------------
  // Full details make a Pokémon complete

  /** The details carry everything the completeness test asks for. */
  predicate FullDetails(db: Db, remote: Remote, d: Details) {
    && d.spriteFront.Some? && d.artworkFront.Some?
    && d.Stat("hp").Some? && d.Stat("attack").Some? && d.Stat("defense").Some?
    && d.Stat("sp_attack").Some? && d.Stat("sp_defense").Some? && d.Stat("speed").Some?
    && d.regionName.Some? && d.regionName.value != ""
    && d.types != [] && d.abilities != []
    && exists k :: 0 <= k < |d.detailedMoves| &&
         (FirstWith(db.moves, MoveName, d.detailedMoves[k].name).Some? ||
          GetMoveDetails(remote, d.detailedMoves[k].name).Some?)
  }

  /** Full details written under a stored region make the Pokémon complete. */
  lemma ApplyDetailsCompletes(db: Db, remote: Remote, pid: int, d: Details, regionId: Option<int>, db': Db)
    requires regionId.Some? && 1 <= regionId.value <= |db.regions|
    requires FullDetails(db, remote, d)
    requires ApplyDetails(db, remote, pid, d, regionId) == Success(db')
    ensures Complete(db', pid)
  {
    ApplyDetailsFrame(db, remote, pid, d, regionId, db');
    ApplyDetailsTypes(db, remote, pid, d, regionId, db');
    ApplyDetailsAbilities(db, remote, pid, d, regionId, db');
    ApplyDetailsMoves(db, remote, pid, d, regionId, db');
    var rec := Record(db', pid).value;
    assert TypeJoin(db'.types, pid, d.types[0]) in rec.types;
    assert AbilityJoinOf(db'.abilities, pid, d.abilities[0]) in rec.abilities;
    var k :| 0 <= k < |d.detailedMoves| &&
      (FirstWith(db.moves, MoveName, d.detailedMoves[k].name).Some? ||
       GetMoveDetails(remote, d.detailedMoves[k].name).Some?);
    var x :| MoveJoin(pid, x, d.detailedMoves[k]) in db'.pokemonMoves;
    assert MoveJoin(pid, x, d.detailedMoves[k]) in rec.moves;
    CompleteIff(Record(db', pid));
  }

  /** An incomplete Pokémon updated from full details is complete afterwards,
      so a second update leaves it alone. */
  lemma UpdateCompletes(db: Db, remote: Remote, id: int, url: Option<string>)
    requires DbValid(db)
    requires UpdateSpec(db, remote, id, url).outcome == Updated
    requires FullDetails(db, remote, DetailsSpec(remote, Some(ById(id)), url).value)
    ensures Complete(UpdateSpec(db, remote, id, url).db, id)
    ensures UpdateSpec(UpdateSpec(db, remote, id, url).db, remote, id, url) ==
      UpdateResult(AlreadyComplete, UpdateSpec(db, remote, id, url).db)
  {
    var d := DetailsSpec(remote, Some(ById(id)), url).value;
    var r := RegionFor(db, d.regionName);
    UpdatedUnfold(db, remote, id, url);
    RegionForEffect(db, d.regionName);
    assert FullDetails(r.0, remote, d) by {
      var k :| 0 <= k < |d.detailedMoves| &&
        (FirstWith(db.moves, MoveName, d.detailedMoves[k].name).Some? ||
         GetMoveDetails(remote, d.detailedMoves[k].name).Some?);
      assert r.0.moves == db.moves;
    }
    ApplyDetailsCompletes(r.0, remote, id, d, r.1, UpdateSpec(db, remote, id, url).db);
  }
}
