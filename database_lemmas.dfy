/** What the deep update does to the store: which tables it may touch,
    which join rows it leaves for the Pokémon, and that it keeps the
    constraints of the schema. */
module DatabaseLemmas {
  import opened Wrappers
  import opened Collections
  import opened Models
  import opened Api
  import opened Database

  // ---------------------------------------------------------------------
  // Tables that only grow

  /** `a` is a prefix of `b`: rows are appended, never changed or removed. */
  predicate Prefix<T(==)>(a: seq<T>, b: seq<T>) {
    |a| <= |b| && b[..|a|] == a
  }

  lemma PrefixTrans<T>(a: seq<T>, b: seq<T>, c: seq<T>)
    requires Prefix(a, b) && Prefix(b, c)
    ensures Prefix(a, c)
  {
    assert c[..|a|] == c[..|b|][..|a|];
  }

  /** A name found in a table is found at the same place once rows are appended. */
  lemma FoundStaysFound<T>(a: seq<T>, b: seq<T>, name: T -> string, n: string)
    requires Prefix(a, b) && FirstWith(a, name, n).Some?
    ensures FirstWith(b, name, n) == FirstWith(a, name, n)
  {
    assert b == a + b[|a|..];
    FirstWithAppend(a, b[|a|..], name, n);
  }

  /** ... and its id stays the same. */
  lemma IdOfGrows<T>(a: seq<T>, b: seq<T>, name: T -> string, id: T -> int, n: string)
    requires Prefix(a, b) && FirstWith(a, name, n).Some?
    ensures IdOf(b, name, id, n) == IdOf(a, name, id, n)
  {
    FoundStaysFound(a, b, name, n);
    var i := FirstWith(a, name, n).value;
    assert b[i] == a[i];
  }

  /** With ids 1, 2, 3, ... the id of a row found by name is a valid id. */
  lemma IdOfInRange<T>(rows: seq<T>, name: T -> string, id: T -> int, n: string)
    requires SequentialIds(rows, id) && FirstWith(rows, name, n).Some?
    ensures 1 <= IdOf(rows, name, id, n) <= |rows|
  {
  }

  /** Two names found with the same id are the same name. */
  lemma IdOfInjective<T>(rows: seq<T>, name: T -> string, id: T -> int, n1: string, n2: string)
    requires SequentialIds(rows, id)
    requires FirstWith(rows, name, n1).Some? && FirstWith(rows, name, n2).Some?
    requires IdOf(rows, name, id, n1) == IdOf(rows, name, id, n2)
    ensures n1 == n2
  {
    var i1 := FirstWith(rows, name, n1).value;
    var i2 := FirstWith(rows, name, n2).value;
    assert id(rows[i1]) == i1 + 1 && id(rows[i2]) == i2 + 1;
  }

  /** Appending a row under the next id and a new name keeps the ids
      sequential and the names unique. */
  lemma AppendFresh<T>(rows: seq<T>, x: T, name: T -> string, id: T -> int)
    requires SequentialIds(rows, id) && Unique(rows, name)
    requires FirstWith(rows, name, name(x)).None? && id(x) == |rows| + 1
    ensures SequentialIds(rows + [x], id) && Unique(rows + [x], name)
  {
    var r := rows + [x];
    forall i, j | 0 <= i < j < |r| ensures name(r[i]) != name(r[j]) {
      if j == |rows| {
        assert r[i] == rows[i];
      } else {
        assert r[i] == rows[i] && r[j] == rows[j];
      }
    }
  }

  lemma MoveIdsGrow(a: seq<MoveRow>, b: seq<MoveRow>)
    requires Prefix(a, b)
    ensures forall x :: x in MoveIds(a) ==> x in MoveIds(b)
  {
    forall x | x in MoveIds(a) ensures x in MoveIds(b) {
      var i :| 0 <= i < |a| && a[i].id == x;
      assert b[i] == a[i];
    }
  }

  // ---------------------------------------------------------------------
  // Looking up or creating

  /** The named tables of the store: ids 1, 2, 3, ... and unique names. */
  predicate TypesValid(types: seq<TypeRow>) {
    SequentialIds(types, TypeKey) && Unique(types, TypeName)
  }

  predicate AbilitiesValid(abilities: seq<AbilityRow>) {
    SequentialIds(abilities, AbilityKey) && Unique(abilities, AbilityName)
  }

  predicate RegionsValid(regions: seq<RegionRow>) {
    SequentialIds(regions, RegionKey) && Unique(regions, RegionName)
  }

  /** A type is looked up before it is created, so no name is stored twice. */
  lemma LookupOrCreateTypeEffect(db: Db, name: string)
    ensures var r := LookupOrCreateType(db, name);
      && r.0 == db.(types := r.0.types)
      && Prefix(db.types, r.0.types)
      && (TypesValid(db.types) ==> TypesValid(r.0.types))
  {
    var r := LookupOrCreateType(db, name);
    if FirstWith(db.types, TypeName, name).None? && TypesValid(db.types) {
      AppendFresh(db.types, TypeRow(|db.types| + 1, name), TypeName, TypeKey);
    }
  }

  lemma LookupOrCreateAbilityEffect(db: Db, remote: Remote, name: string)
    ensures var r := LookupOrCreateAbility(db, remote, name);
      && r.0 == db.(abilities := r.0.abilities)
      && Prefix(db.abilities, r.0.abilities)
      && (AbilitiesValid(db.abilities) ==> AbilitiesValid(r.0.abilities))
  {
    var r := LookupOrCreateAbility(db, remote, name);
    if FirstWith(db.abilities, AbilityName, name).None? && AbilitiesValid(db.abilities) {
      var texts := AbilityTexts(GetAbilityDetails(remote, name));
      AppendFresh(db.abilities, AbilityRow(|db.abilities| + 1, name, texts.0, texts.1), AbilityName, AbilityKey);
    }
  }

  /** The region step keeps the regions valid and the id it returns refers
      to a region of that name. */
  lemma RegionForEffect(db: Db, regionName: Option<string>)
    ensures var r := RegionFor(db, regionName);
      && r.0 == db.(regions := r.0.regions)
      && Prefix(db.regions, r.0.regions)
      && (RegionsValid(db.regions) ==> RegionsValid(r.0.regions))
      && (RegionsValid(db.regions) && r.1.Some? ==>
            1 <= r.1.value <= |r.0.regions| && r.0.regions[r.1.value - 1].name == regionName.value)
  {
    var r := RegionFor(db, regionName);
    if regionName.Some? && regionName.value != "" {
      var n := regionName.value;
      if FirstWith(db.regions, RegionName, n).None? && RegionsValid(db.regions) {
        AppendFresh(db.regions, RegionRow(|db.regions| + 1, n), RegionName, RegionKey);
      }
      if RegionsValid(db.regions) {
        IdOfInRange(r.0.regions, RegionName, RegionKey, n);
        var i := FirstWith(r.0.regions, RegionName, n).value;
        assert r.0.regions[i].id == i + 1;
      }
    }
  }

  /** When the region is created, the region step is `add_to_db` of it. */
  lemma RegionForIsAddToDb(db: Db, name: string)
    requires name != "" && FirstWith(db.regions, RegionName, name).None?
    ensures AddRegionToDb(db, name) == Some(RegionFor(db, Some(name)).0)
  {
  }

  // ---------------------------------------------------------------------
  // The three join loops

  /** The type row derived from a slot, given the final `types` table. */
  function TypeJoin(types: seq<TypeRow>, pid: int, slot: TypeSlot): PokemonTypeRow {
    PokemonTypeRow(pid, IdOf(types, TypeName, TypeKey, slot.typeRef.name))
  }


  /** The type loop touches only the types table and the type joins; it
      keeps every join row it found and finds every type it was given. */
  lemma {:induction false} AddTypesFrame(db: Db, pid: int, slots: seq<TypeSlot>, db': Db)
    requires AddTypes(db, pid, slots) == Success(db')
    ensures db'.regions == db.regions && db'.pokemon == db.pokemon && db'.abilities == db.abilities
    ensures db'.moves == db.moves && db'.pokemonAbilities == db.pokemonAbilities
    ensures db'.pokemonMoves == db.pokemonMoves && db'.syncInfo == db.syncInfo
    ensures Prefix(db.types, db'.types)
    ensures TypesValid(db.types) ==> TypesValid(db'.types)
    ensures forall t :: t in db.pokemonTypes ==> t in db'.pokemonTypes
    ensures forall k :: 0 <= k < |slots| ==> FirstWith(db'.types, TypeName, slots[k].typeRef.name).Some?
    decreases |slots|
  {
    if slots != [] {
      var name := slots[0].typeRef.name;
      var (db1, tid) := LookupOrCreateType(db, name);
      LookupOrCreateTypeEffect(db, name);
      var dbn := db1.(pokemonTypes := db1.pokemonTypes + {PokemonTypeRow(pid, tid)});
      var tail := slots[1..];
      AddTypesFrame(dbn, pid, tail, db');
      PrefixTrans(db.types, db1.types, db'.types);
      FoundStaysFound(db1.types, db'.types, TypeName, name);
      forall k | 1 <= k < |slots| ensures slots[k] == tail[k - 1] { }
    }
  }

  /** The unfolding of one step of the type loop. */
  lemma AddTypesStep(db: Db, pid: int, slots: seq<TypeSlot>, db': Db)
    requires slots != [] && AddTypes(db, pid, slots) == Success(db')
    ensures var r := LookupOrCreateType(db, slots[0].typeRef.name);
      && PokemonTypeRow(pid, r.1) !in db.pokemonTypes
      && AddTypes(r.0.(pokemonTypes := db.pokemonTypes + {PokemonTypeRow(pid, r.1)}), pid, slots[1..]) == Success(db')
      && PokemonTypeRow(pid, r.1) == TypeJoin(db'.types, pid, slots[0])
  {
    var name := slots[0].typeRef.name;
    var r := LookupOrCreateType(db, name);
    var dbn := r.0.(pokemonTypes := r.0.pokemonTypes + {PokemonTypeRow(pid, r.1)});
    AddTypesFrame(dbn, pid, slots[1..], db');
    IdOfGrows(r.0.types, db'.types, TypeName, TypeKey, name);
  }

  /** The type rows the loop adds are exactly one per slot. */
  lemma {:induction false} AddTypesRows(db: Db, pid: int, slots: seq<TypeSlot>, db': Db)
    requires AddTypes(db, pid, slots) == Success(db')
    ensures forall t :: t in db'.pokemonTypes <==>
      t in db.pokemonTypes || exists k :: 0 <= k < |slots| && t == TypeJoin(db'.types, pid, slots[k])
    decreases |slots|
  {
    if slots != [] {
      AddTypesStep(db, pid, slots, db');
      var r := LookupOrCreateType(db, slots[0].typeRef.name);
      var row := PokemonTypeRow(pid, r.1);
      var dbn := r.0.(pokemonTypes := db.pokemonTypes + {row});
      var tail := slots[1..];
      AddTypesRows(dbn, pid, tail, db');
      forall t | t in db'.pokemonTypes && t !in db.pokemonTypes
        ensures exists k :: 0 <= k < |slots| && t == TypeJoin(db'.types, pid, slots[k])
      {
        if t != row {
          var k :| 0 <= k < |tail| && t == TypeJoin(db'.types, pid, tail[k]);
          assert tail[k] == slots[k + 1];
        }
      }
      forall k | 0 <= k < |slots| ensures TypeJoin(db'.types, pid, slots[k]) in db'.pokemonTypes {
        if k > 0 {
          assert slots[k] == tail[k - 1];
        }
      }
    }
  }

  /** None of the rows the type loop adds was stored before, and no two are
      alike: a list of slots naming a type twice fails. */
  lemma {:induction false} AddTypesFresh(db: Db, pid: int, slots: seq<TypeSlot>, db': Db)
    requires AddTypes(db, pid, slots) == Success(db')
    ensures forall k :: 0 <= k < |slots| ==> TypeJoin(db'.types, pid, slots[k]) !in db.pokemonTypes
    ensures forall i, j :: 0 <= i < j < |slots| ==> TypeJoin(db'.types, pid, slots[i]) != TypeJoin(db'.types, pid, slots[j])
    decreases |slots|
  {
    if slots != [] {
      AddTypesStep(db, pid, slots, db');
      var r := LookupOrCreateType(db, slots[0].typeRef.name);
      var row := PokemonTypeRow(pid, r.1);
      var dbn := r.0.(pokemonTypes := db.pokemonTypes + {row});
      var tail := slots[1..];
      AddTypesFresh(dbn, pid, tail, db');
      forall k | 1 <= k < |slots| ensures slots[k] == tail[k - 1] { }
    }
  }

  /** The ability row derived from a slot, given the final `abilities` table. */
  function AbilityIdIn(abilities: seq<AbilityRow>, slot: AbilitySlot): int {
    IdOf(abilities, AbilityName, AbilityKey, slot.ability.name)
  }

  function AbilityJoinOf(abilities: seq<AbilityRow>, pid: int, slot: AbilitySlot): PokemonAbilityRow {
    AbilityJoin(pid, AbilityIdIn(abilities, slot), slot)
  }

  /** The ability loop touches only the abilities table and the ability
      joins; it keeps every join row it found and finds every ability it
      was given. */
  lemma {:induction false} AddAbilitiesFrame(db: Db, remote: Remote, pid: int, slots: seq<AbilitySlot>, db': Db)
    requires AddAbilities(db, remote, pid, slots) == Success(db')
    ensures db'.regions == db.regions && db'.pokemon == db.pokemon && db'.types == db.types
    ensures db'.moves == db.moves && db'.pokemonTypes == db.pokemonTypes
    ensures db'.pokemonMoves == db.pokemonMoves && db'.syncInfo == db.syncInfo
    ensures Prefix(db.abilities, db'.abilities)
    ensures AbilitiesValid(db.abilities) ==> AbilitiesValid(db'.abilities)
    ensures forall a :: a in db.pokemonAbilities ==> a in db'.pokemonAbilities
    ensures forall k :: 0 <= k < |slots| ==> FirstWith(db'.abilities, AbilityName, slots[k].ability.name).Some?
    decreases |slots|
  {
    if slots != [] {
      var name := slots[0].ability.name;
      var r := LookupOrCreateAbility(db, remote, name);
      LookupOrCreateAbilityEffect(db, remote, name);
      var dbn := r.0.(pokemonAbilities := r.0.pokemonAbilities + {AbilityJoin(pid, r.1, slots[0])});
      var tail := slots[1..];
      AddAbilitiesFrame(dbn, remote, pid, tail, db');
      PrefixTrans(db.abilities, r.0.abilities, db'.abilities);
      FoundStaysFound(r.0.abilities, db'.abilities, AbilityName, name);
      forall k | 1 <= k < |slots| ensures slots[k] == tail[k - 1] { }
    }
  }

  /** The unfolding of one step of the ability loop. */
  lemma AddAbilitiesStep(db: Db, remote: Remote, pid: int, slots: seq<AbilitySlot>, db': Db)
    requires slots != [] && AddAbilities(db, remote, pid, slots) == Success(db')
    ensures var r := LookupOrCreateAbility(db, remote, slots[0].ability.name);
      && !HasAbilityKey(db.pokemonAbilities, pid, r.1)
      && AddAbilities(r.0.(pokemonAbilities := db.pokemonAbilities + {AbilityJoin(pid, r.1, slots[0])}),
                      remote, pid, slots[1..]) == Success(db')
      && r.1 == AbilityIdIn(db'.abilities, slots[0])
  {
    var name := slots[0].ability.name;
    var r := LookupOrCreateAbility(db, remote, name);
    var dbn := r.0.(pokemonAbilities := r.0.pokemonAbilities + {AbilityJoin(pid, r.1, slots[0])});
    AddAbilitiesFrame(dbn, remote, pid, slots[1..], db');
    IdOfGrows(r.0.abilities, db'.abilities, AbilityName, AbilityKey, name);
  }

  /** The ability rows the loop adds are exactly one per slot. */
  lemma AddAbilitiesRows(db: Db, remote: Remote, pid: int, slots: seq<AbilitySlot>, db': Db)
    requires AddAbilities(db, remote, pid, slots) == Success(db')
    ensures forall a :: a in db'.pokemonAbilities <==>
      a in db.pokemonAbilities || exists k :: 0 <= k < |slots| && a == AbilityJoinOf(db'.abilities, pid, slots[k])
  {
    AddAbilitiesFrame(db, remote, pid, slots, db');
    AddAbilitiesFromSlots(db, remote, pid, slots, db');
    AddAbilitiesAllSlots(db, remote, pid, slots, db');
  }

  lemma {:induction false} AddAbilitiesFromSlots(db: Db, remote: Remote, pid: int, slots: seq<AbilitySlot>, db': Db)
    requires AddAbilities(db, remote, pid, slots) == Success(db')
    ensures forall a :: a in db'.pokemonAbilities && a !in db.pokemonAbilities ==>
      exists k :: 0 <= k < |slots| && a == AbilityJoinOf(db'.abilities, pid, slots[k])
    decreases |slots|
  {
    if slots != [] {
      AddAbilitiesStep(db, remote, pid, slots, db');
      var r := LookupOrCreateAbility(db, remote, slots[0].ability.name);
      var row := AbilityJoin(pid, r.1, slots[0]);
      var dbn := r.0.(pokemonAbilities := db.pokemonAbilities + {row});
      var tail := slots[1..];
      AddAbilitiesFromSlots(dbn, remote, pid, tail, db');
      assert row == AbilityJoinOf(db'.abilities, pid, slots[0]);
      forall a | a in db'.pokemonAbilities && a !in db.pokemonAbilities
        ensures exists k :: 0 <= k < |slots| && a == AbilityJoinOf(db'.abilities, pid, slots[k])
      {
        if a != row {
          assert a !in dbn.pokemonAbilities;
          var k :| 0 <= k < |tail| && a == AbilityJoinOf(db'.abilities, pid, tail[k]);
          assert tail[k] == slots[k + 1];
        }
      }
    }
  }

  lemma {:induction false} AddAbilitiesAllSlots(db: Db, remote: Remote, pid: int, slots: seq<AbilitySlot>, db': Db)
    requires AddAbilities(db, remote, pid, slots) == Success(db')
    ensures forall k :: 0 <= k < |slots| ==> AbilityJoinOf(db'.abilities, pid, slots[k]) in db'.pokemonAbilities
    decreases |slots|
  {
    if slots != [] {
      AddAbilitiesStep(db, remote, pid, slots, db');
      var r := LookupOrCreateAbility(db, remote, slots[0].ability.name);
      var row := AbilityJoin(pid, r.1, slots[0]);
      var dbn := r.0.(pokemonAbilities := db.pokemonAbilities + {row});
      var tail := slots[1..];
      AddAbilitiesAllSlots(dbn, remote, pid, tail, db');
      AddAbilitiesFrame(dbn, remote, pid, tail, db');
      assert row == AbilityJoinOf(db'.abilities, pid, slots[0]);
      assert row in dbn.pokemonAbilities;
      forall k | 1 <= k < |slots| ensures AbilityJoinOf(db'.abilities, pid, slots[k]) in db'.pokemonAbilities {
        assert slots[k] == tail[k - 1];
      }
    }
  }

  /** A row whose key is not taken keeps the key of `pokemon_abilities` unique. */
  lemma AddFreshAbilityKey(rows: set<PokemonAbilityRow>, row: PokemonAbilityRow)
    requires AbilityKeysUnique(rows) && !HasAbilityKey(rows, row.pokemonId, row.abilityId)
    ensures AbilityKeysUnique(rows + {row})
  {
  }

  /** Each row the ability loop adds has a key not taken before, the
      abilities of the slots are pairwise different, and so the key of
      `pokemon_abilities` stays unique. */
  lemma {:induction false} AddAbilitiesFresh(db: Db, remote: Remote, pid: int, slots: seq<AbilitySlot>, db': Db)
    requires AddAbilities(db, remote, pid, slots) == Success(db')
    ensures forall k :: 0 <= k < |slots| ==> !HasAbilityKey(db.pokemonAbilities, pid, AbilityIdIn(db'.abilities, slots[k]))
    ensures forall i, j :: 0 <= i < j < |slots| ==> AbilityIdIn(db'.abilities, slots[i]) != AbilityIdIn(db'.abilities, slots[j])
    ensures AbilityKeysUnique(db.pokemonAbilities) ==> AbilityKeysUnique(db'.pokemonAbilities)
    decreases |slots|
  {
    if slots != [] {
      AddAbilitiesStep(db, remote, pid, slots, db');
      var r := LookupOrCreateAbility(db, remote, slots[0].ability.name);
      var row := AbilityJoin(pid, r.1, slots[0]);
      var dbn := r.0.(pokemonAbilities := db.pokemonAbilities + {row});
      var tail := slots[1..];
      AddAbilitiesFresh(dbn, remote, pid, tail, db');
      forall k | 1 <= k < |slots| ensures slots[k] == tail[k - 1] { }
      forall j | 1 <= j < |slots| ensures r.1 != AbilityIdIn(db'.abilities, slots[j]) {
        assert !HasAbilityKey(dbn.pokemonAbilities, pid, AbilityIdIn(db'.abilities, tail[j - 1]));
        assert row in dbn.pokemonAbilities;
      }
      if AbilityKeysUnique(db.pokemonAbilities) {
        AddFreshAbilityKey(db.pokemonAbilities, row);
      }
    }
  }

  /** The constraints on `types` and `moves`: unique move ids and names, and
      every move refers to a stored type. */
  predicate MovesValid(db: Db) {
    && TypesValid(db.types)
    && Unique(db.moves, MoveKey) && Unique(db.moves, MoveName)
    && (forall i :: 0 <= i < |db.moves| ==> 1 <= db.moves[i].typeId <= |db.types|)
  }

  /** A new move with an id and a name not yet stored keeps the moves valid. */
  lemma AppendMove(db: Db, row: MoveRow)
    requires MovesValid(db) && !MoveClashes(db.moves, row) && 1 <= row.typeId <= |db.types|
    ensures MovesValid(db.(moves := db.moves + [row]))
  {
    var r := db.moves + [row];
    forall i, j | 0 <= i < j < |r| ensures r[i].id != r[j].id && r[i].name != r[j].name {
      assert r[i] == db.moves[i];
      if j < |db.moves| { assert r[j] == db.moves[j]; }
    }
  }

  /** One learnable move: only `types`, `moves` and the move joins change;
      the join row it adds, if any, is for this record and the move its name
      resolves to, and there is one whenever the move is stored or can be
      fetched. */
  lemma AddMoveEffect(db: Db, remote: Remote, pid: int, rec: MoveRecord, db1: Db)
    requires AddMove(db, remote, pid, rec) == Success(db1)
    ensures db1.regions == db.regions && db1.pokemon == db.pokemon && db1.abilities == db.abilities
    ensures db1.pokemonTypes == db.pokemonTypes && db1.pokemonAbilities == db.pokemonAbilities
    ensures db1.syncInfo == db.syncInfo
    ensures Prefix(db.types, db1.types) && Prefix(db.moves, db1.moves)
    ensures MovesValid(db) ==> MovesValid(db1)
    ensures forall m :: m in db.pokemonMoves ==> m in db1.pokemonMoves
    ensures forall m :: m in db1.pokemonMoves && m !in db.pokemonMoves ==>
      m == MoveJoin(pid, m.moveId, rec) && m.moveId in MoveIds(db1.moves) &&
      ResolvedMoveId(db.moves, remote, rec.name) == Some(m.moveId)
    ensures ResolvedMoveId(db.moves, remote, rec.name).Some? ==>
      MoveJoin(pid, ResolvedMoveId(db.moves, remote, rec.name).value, rec) in db1.pokemonMoves
  {
    AddMoveShape(db, remote, pid, rec, db1);
    AddMoveJoins(db, remote, pid, rec, db1);
    if MovesValid(db) {
      AddMoveValid(db, remote, pid, rec, db1);
    }
  }

  /** One learnable move appends to `types` and `moves`, changes the move
      joins and nothing else. */
  lemma AddMoveShape(db: Db, remote: Remote, pid: int, rec: MoveRecord, db1: Db)
    requires AddMove(db, remote, pid, rec) == Success(db1)
    ensures db1 == db.(types := db1.types, moves := db1.moves, pokemonMoves := db1.pokemonMoves)
    ensures Prefix(db.types, db1.types) && Prefix(db.moves, db1.moves)
  {
    if FirstWith(db.moves, MoveName, rec.name).None? && GetMoveDetails(remote, rec.name).Some? {
      LookupOrCreateTypeEffect(db, GetMoveDetails(remote, rec.name).value.typeRef.name);
    }
  }

  /** The join rows of one learnable move: none is lost, the one it adds is
      for this record and the stored move its name resolves to, and there is
      one whenever the move is stored or can be fetched. */
  lemma AddMoveJoins(db: Db, remote: Remote, pid: int, rec: MoveRecord, db1: Db)
    requires AddMove(db, remote, pid, rec) == Success(db1)
    ensures forall m :: m in db.pokemonMoves ==> m in db1.pokemonMoves
    ensures forall m :: m in db1.pokemonMoves && m !in db.pokemonMoves ==>
      m == MoveJoin(pid, m.moveId, rec) && m.moveId in MoveIds(db1.moves) &&
      ResolvedMoveId(db.moves, remote, rec.name) == Some(m.moveId)
    ensures ResolvedMoveId(db.moves, remote, rec.name).Some? ==>
      MoveJoin(pid, ResolvedMoveId(db.moves, remote, rec.name).value, rec) in db1.pokemonMoves
  {
    match FirstWith(db.moves, MoveName, rec.name)
    case Some(i) =>
      assert db.moves[i].id in MoveIds(db.moves);
    case None =>
      match GetMoveDetails(remote, rec.name)
      case None =>
      case Some(m) =>
        var r := LookupOrCreateType(db, m.typeRef.name);
        LookupOrCreateTypeEffect(db, m.typeRef.name);
        var row := MoveRowOf(m, r.1);
        var dbm := r.0.(moves := r.0.moves + [row]);
        assert dbm.moves[|r.0.moves|] == row;
        assert m.id in MoveIds(dbm.moves);
  }

  /** A record whose fetched move carries its own name leaves every name
      resolving to the same move id for the records after it. */
  lemma ResolveStable(db: Db, remote: Remote, pid: int, rec: MoveRecord, db1: Db, n: string)
    requires AddMove(db, remote, pid, rec) == Success(db1)
    requires GetMoveDetails(remote, rec.name).Some? ==> GetMoveDetails(remote, rec.name).value.name == rec.name
    ensures ResolvedMoveId(db1.moves, remote, n) == ResolvedMoveId(db.moves, remote, n)
  {
    if FirstWith(db.moves, MoveName, rec.name).None? && GetMoveDetails(remote, rec.name).Some? {
      var m := GetMoveDetails(remote, rec.name).value;
      var r := LookupOrCreateType(db, m.typeRef.name);
      LookupOrCreateTypeEffect(db, m.typeRef.name);
      var row := MoveRowOf(m, r.1);
      assert db1.moves == db.moves + [row];
      FirstWithAppend(db.moves, [row], MoveName, n);
      if FirstWith(db.moves, MoveName, n).Some? {
        assert db1.moves[FirstWith(db.moves, MoveName, n).value] == db.moves[FirstWith(db.moves, MoveName, n).value];
      } else if n == rec.name {
        assert FirstWith([row], MoveName, n) == Some(0);
        assert db1.moves[|db.moves|] == row;
      } else {
        assert FirstWith([row], MoveName, n).None?;
      }
    }
  }

  /** One learnable move keeps the `moves` table valid. */
  lemma AddMoveValid(db: Db, remote: Remote, pid: int, rec: MoveRecord, db1: Db)
    requires AddMove(db, remote, pid, rec) == Success(db1) && MovesValid(db)
    ensures MovesValid(db1)
  {
    if FirstWith(db.moves, MoveName, rec.name).None? {
      match GetMoveDetails(remote, rec.name)
      case None =>
      case Some(m) =>
        var r := LookupOrCreateType(db, m.typeRef.name);
        LookupOrCreateTypeEffect(db, m.typeRef.name);
        IdOfInRange(r.0.types, TypeName, TypeKey, m.typeRef.name);
        AppendMove(r.0, MoveRowOf(m, r.1));
    }
  }

  /** The move loop: only `types`, `moves` and the move joins change, the
      named tables only grow and stay valid, and no join row is lost. */
  lemma {:induction false} AddMovesFrame(db: Db, remote: Remote, pid: int, recs: seq<MoveRecord>, db': Db)
    requires AddMoves(db, remote, pid, recs) == Success(db')
    ensures db'.regions == db.regions && db'.pokemon == db.pokemon && db'.abilities == db.abilities
    ensures db'.pokemonTypes == db.pokemonTypes && db'.pokemonAbilities == db.pokemonAbilities
    ensures db'.syncInfo == db.syncInfo
    ensures Prefix(db.types, db'.types) && Prefix(db.moves, db'.moves)
    ensures MovesValid(db) ==> MovesValid(db')
    ensures forall m :: m in db.pokemonMoves ==> m in db'.pokemonMoves
    decreases |recs|
  {
    if recs != [] {
      var db1 := AddMove(db, remote, pid, recs[0]).value;
      AddMoveEffect(db, remote, pid, recs[0], db1);
      assert AddMoves(db1, remote, pid, recs[1..]) == Success(db');
      AddMovesFrame(db1, remote, pid, recs[1..], db');
      PrefixTrans(db.types, db1.types, db'.types);
      PrefixTrans(db.moves, db1.moves, db'.moves);
    }
  }

  /** The move loop adds join rows only for its records and existing moves;
      when the fetched moves carry the names they were fetched by, each such
      row links its record to the move the record's name resolves to in the
      table as the loop started. */
  lemma {:induction false} AddMovesNewRows(db: Db, remote: Remote, pid: int, recs: seq<MoveRecord>, db': Db)
    requires AddMoves(db, remote, pid, recs) == Success(db')
    ensures forall m :: m in db'.pokemonMoves && m !in db.pokemonMoves ==>
      m.moveId in MoveIds(db'.moves) && exists k :: 0 <= k < |recs| && m == MoveJoin(pid, m.moveId, recs[k])
    ensures NamedAsFetched(remote, recs) ==>
      forall m :: m in db'.pokemonMoves && m !in db.pokemonMoves ==>
        exists k :: 0 <= k < |recs| && m == MoveJoin(pid, m.moveId, recs[k]) &&
          ResolvedMoveId(db.moves, remote, recs[k].name) == Some(m.moveId)
    decreases |recs|
  {
    if recs != [] {
      var db1 := AddMove(db, remote, pid, recs[0]).value;
      AddMoveEffect(db, remote, pid, recs[0], db1);
      var tail := recs[1..];
      assert AddMoves(db1, remote, pid, tail) == Success(db');
      AddMovesNewRows(db1, remote, pid, tail, db');
      AddMovesFrame(db1, remote, pid, tail, db');
      MoveIdsGrow(db1.moves, db'.moves);
      forall m | m in db'.pokemonMoves && m !in db.pokemonMoves
        ensures exists k :: 0 <= k < |recs| && m == MoveJoin(pid, m.moveId, recs[k])
      {
        if m !in db1.pokemonMoves {
          var k :| 0 <= k < |tail| && m == MoveJoin(pid, m.moveId, tail[k]);
          assert tail[k] == recs[k + 1];
        }
      }
      if NamedAsFetched(remote, recs) {
        NamedAsFetchedTail(remote, recs);
        forall m | m in db'.pokemonMoves && m !in db.pokemonMoves
          ensures exists k :: (0 <= k < |recs| && m == MoveJoin(pid, m.moveId, recs[k]) &&
                               ResolvedMoveId(db.moves, remote, recs[k].name) == Some(m.moveId))
        {
          if m !in db1.pokemonMoves {
            var k :| 0 <= k < |tail| && m == MoveJoin(pid, m.moveId, tail[k]) &&
              ResolvedMoveId(db1.moves, remote, tail[k].name) == Some(m.moveId);
            ResolveStable(db, remote, pid, recs[0], db1, tail[k].name);
            assert tail[k] == recs[k + 1];
          }
        }
      }
    }
  }

  /** The records after the first are named as fetched when all are. */
  lemma NamedAsFetchedTail(remote: Remote, recs: seq<MoveRecord>)
    requires recs != [] && NamedAsFetched(remote, recs)
    ensures NamedAsFetched(remote, recs[1..])
    ensures GetMoveDetails(remote, recs[0].name).Some? ==> GetMoveDetails(remote, recs[0].name).value.name == recs[0].name
  {
    forall k | 0 <= k < |recs| - 1 ensures recs[1..][k] == recs[k + 1] { }
  }

  /** The move loop adds a join row for every record whose move is stored
      or can be fetched. */
  lemma {:induction false} AddMovesCover(db: Db, remote: Remote, pid: int, recs: seq<MoveRecord>, db': Db)
    requires AddMoves(db, remote, pid, recs) == Success(db')
    ensures forall k :: 0 <= k < |recs| && (FirstWith(db.moves, MoveName, recs[k].name).Some? || GetMoveDetails(remote, recs[k].name).Some?) ==>
      exists x :: MoveJoin(pid, x, recs[k]) in db'.pokemonMoves
    ensures NamedAsFetched(remote, recs) ==>
      forall k :: 0 <= k < |recs| && ResolvedMoveId(db.moves, remote, recs[k].name).Some? ==>
        MoveJoin(pid, ResolvedMoveId(db.moves, remote, recs[k].name).value, recs[k]) in db'.pokemonMoves
    decreases |recs|
  {
    if recs != [] {
      var db1 := AddMove(db, remote, pid, recs[0]).value;
      AddMoveEffect(db, remote, pid, recs[0], db1);
      var tail := recs[1..];
      assert AddMoves(db1, remote, pid, tail) == Success(db');
      AddMovesCover(db1, remote, pid, tail, db');
      AddMovesFrame(db1, remote, pid, tail, db');
      forall k | 1 <= k < |recs| && (FirstWith(db.moves, MoveName, recs[k].name).Some? || GetMoveDetails(remote, recs[k].name).Some?)
        ensures exists x :: MoveJoin(pid, x, recs[k]) in db'.pokemonMoves
      {
        if FirstWith(db.moves, MoveName, recs[k].name).Some? {
          FoundStaysFound(db.moves, db1.moves, MoveName, recs[k].name);
        }
        assert tail[k - 1] == recs[k];
      }
      if NamedAsFetched(remote, recs) {
        NamedAsFetchedTail(remote, recs);
        forall k | 0 <= k < |recs| && ResolvedMoveId(db.moves, remote, recs[k].name).Some?
          ensures MoveJoin(pid, ResolvedMoveId(db.moves, remote, recs[k].name).value, recs[k]) in db'.pokemonMoves
        {
          if k > 0 {
            ResolveStable(db, remote, pid, recs[0], db1, recs[k].name);
            assert tail[k - 1] == recs[k];
          }
        }
      }
    }
  }

  /** The move loop as a whole. */
  lemma AddMovesEffect(db: Db, remote: Remote, pid: int, recs: seq<MoveRecord>, db': Db)
    requires AddMoves(db, remote, pid, recs) == Success(db')
    ensures db'.regions == db.regions && db'.pokemon == db.pokemon && db'.abilities == db.abilities
    ensures db'.pokemonTypes == db.pokemonTypes && db'.pokemonAbilities == db.pokemonAbilities
    ensures db'.syncInfo == db.syncInfo
    ensures Prefix(db.types, db'.types) && Prefix(db.moves, db'.moves)
    ensures MovesValid(db) ==> MovesValid(db')
    ensures forall m :: m in db.pokemonMoves ==> m in db'.pokemonMoves
    ensures forall m :: m in db'.pokemonMoves && m !in db.pokemonMoves ==>
      m.moveId in MoveIds(db'.moves) && exists k :: 0 <= k < |recs| && m == MoveJoin(pid, m.moveId, recs[k])
    ensures forall k :: 0 <= k < |recs| && (FirstWith(db.moves, MoveName, recs[k].name).Some? || GetMoveDetails(remote, recs[k].name).Some?) ==>
      exists x :: MoveJoin(pid, x, recs[k]) in db'.pokemonMoves
    ensures NamedAsFetched(remote, recs) ==>
      forall m :: m in db'.pokemonMoves && m !in db.pokemonMoves ==>
        exists k :: 0 <= k < |recs| && m == MoveJoin(pid, m.moveId, recs[k]) &&
          ResolvedMoveId(db.moves, remote, recs[k].name) == Some(m.moveId)
    ensures NamedAsFetched(remote, recs) ==>
      forall k :: 0 <= k < |recs| && ResolvedMoveId(db.moves, remote, recs[k].name).Some? ==>
        MoveJoin(pid, ResolvedMoveId(db.moves, remote, recs[k].name).value, recs[k]) in db'.pokemonMoves
  {
    AddMovesFrame(db, remote, pid, recs, db');
    AddMovesNewRows(db, remote, pid, recs, db');
    AddMovesCover(db, remote, pid, recs, db');
  }

  // ---------------------------------------------------------------------
  // The row and its joins, replaced

  /** Which tables writing the details changes: the row of `pid` is
      overwritten, the named tables only grow, the regions and the sync
      record stay, and the join rows of every other Pokémon stay. */
  lemma ApplyDetailsFrame(db: Db, remote: Remote, pid: int, d: Details, regionId: Option<int>, db': Db)
    requires ApplyDetails(db, remote, pid, d, regionId) == Success(db')
    ensures db'.regions == db.regions && db'.syncInfo == db.syncInfo
    ensures db'.pokemon == db.pokemon[pid := PokemonRowOf(d, regionId)]
    ensures Prefix(db.types, db'.types) && Prefix(db.abilities, db'.abilities) && Prefix(db.moves, db'.moves)
    ensures forall t: PokemonTypeRow :: t.pokemonId != pid ==> (t in db'.pokemonTypes <==> t in db.pokemonTypes)
    ensures forall a: PokemonAbilityRow :: a.pokemonId != pid ==> (a in db'.pokemonAbilities <==> a in db.pokemonAbilities)
    ensures forall m: PokemonMoveRow :: m.pokemonId != pid ==> (m in db'.pokemonMoves <==> m in db.pokemonMoves)
  {
    var db1 := db.(pokemon := db.pokemon[pid := PokemonRowOf(d, regionId)]);
    var s2 := db1.(pokemonTypes := WithoutTypesOf(db1.pokemonTypes, pid));
    var db2 := AddTypes(s2, pid, d.types).value;
    AddTypesFrame(s2, pid, d.types, db2);
    AddTypesRows(s2, pid, d.types, db2);
    var s3 := db2.(pokemonAbilities := WithoutAbilitiesOf(db2.pokemonAbilities, pid));
    var db3 := AddAbilities(s3, remote, pid, d.abilities).value;
    AddAbilitiesFrame(s3, remote, pid, d.abilities, db3);
    AddAbilitiesRows(s3, remote, pid, d.abilities, db3);
    var s4 := db3.(pokemonMoves := WithoutMovesOf(db3.pokemonMoves, pid));
    assert AddMoves(s4, remote, pid, d.detailedMoves) == Success(db');
    AddMovesEffect(s4, remote, pid, d.detailedMoves, db');
    PrefixTrans(db.types, db2.types, db'.types);
  }

  /** The type rows of `pid` afterwards are exactly one per type slot of the
      details: none from before survives. */
  lemma ApplyDetailsTypes(db: Db, remote: Remote, pid: int, d: Details, regionId: Option<int>, db': Db)
    requires ApplyDetails(db, remote, pid, d, regionId) == Success(db')
    ensures forall k :: 0 <= k < |d.types| ==> FirstWith(db'.types, TypeName, d.types[k].typeRef.name).Some?
    ensures forall t: PokemonTypeRow :: t.pokemonId == pid ==>
      (t in db'.pokemonTypes <==> exists k :: 0 <= k < |d.types| && t == TypeJoin(db'.types, pid, d.types[k]))
    ensures forall i, j :: 0 <= i < j < |d.types| ==> TypeJoin(db'.types, pid, d.types[i]) != TypeJoin(db'.types, pid, d.types[j])
  {
    var db1 := db.(pokemon := db.pokemon[pid := PokemonRowOf(d, regionId)]);
    var s2 := db1.(pokemonTypes := WithoutTypesOf(db1.pokemonTypes, pid));
    var db2 := AddTypes(s2, pid, d.types).value;
    AddTypesFrame(s2, pid, d.types, db2);
    AddTypesRows(s2, pid, d.types, db2);
    AddTypesFresh(s2, pid, d.types, db2);
    var s3 := db2.(pokemonAbilities := WithoutAbilitiesOf(db2.pokemonAbilities, pid));
    var db3 := AddAbilities(s3, remote, pid, d.abilities).value;
    AddAbilitiesFrame(s3, remote, pid, d.abilities, db3);
    var s4 := db3.(pokemonMoves := WithoutMovesOf(db3.pokemonMoves, pid));
    assert AddMoves(s4, remote, pid, d.detailedMoves) == Success(db');
    AddMovesEffect(s4, remote, pid, d.detailedMoves, db');
    forall k | 0 <= k < |d.types|
      ensures TypeJoin(db'.types, pid, d.types[k]) == TypeJoin(db2.types, pid, d.types[k])
      ensures FirstWith(db'.types, TypeName, d.types[k].typeRef.name).Some?
    {
      IdOfGrows(db2.types, db'.types, TypeName, TypeKey, d.types[k].typeRef.name);
      FoundStaysFound(db2.types, db'.types, TypeName, d.types[k].typeRef.name);
    }
  }

  /** The ability rows of `pid` afterwards are exactly one per ability slot
      of the details, with pairwise different abilities. */
  lemma ApplyDetailsAbilities(db: Db, remote: Remote, pid: int, d: Details, regionId: Option<int>, db': Db)
    requires ApplyDetails(db, remote, pid, d, regionId) == Success(db')
    ensures forall k :: 0 <= k < |d.abilities| ==> FirstWith(db'.abilities, AbilityName, d.abilities[k].ability.name).Some?
    ensures forall a: PokemonAbilityRow :: a.pokemonId == pid ==>
      (a in db'.pokemonAbilities <==> exists k :: 0 <= k < |d.abilities| && a == AbilityJoinOf(db'.abilities, pid, d.abilities[k]))
    ensures forall i, j :: 0 <= i < j < |d.abilities| ==>
      AbilityIdIn(db'.abilities, d.abilities[i]) != AbilityIdIn(db'.abilities, d.abilities[j])
  {
    var db1 := db.(pokemon := db.pokemon[pid := PokemonRowOf(d, regionId)]);
    var s2 := db1.(pokemonTypes := WithoutTypesOf(db1.pokemonTypes, pid));
    var db2 := AddTypes(s2, pid, d.types).value;
    AddTypesFrame(s2, pid, d.types, db2);
    var s3 := db2.(pokemonAbilities := WithoutAbilitiesOf(db2.pokemonAbilities, pid));
    var db3 := AddAbilities(s3, remote, pid, d.abilities).value;
    AddAbilitiesFrame(s3, remote, pid, d.abilities, db3);
    AddAbilitiesRows(s3, remote, pid, d.abilities, db3);
    AddAbilitiesFresh(s3, remote, pid, d.abilities, db3);
    var s4 := db3.(pokemonMoves := WithoutMovesOf(db3.pokemonMoves, pid));
    assert AddMoves(s4, remote, pid, d.detailedMoves) == Success(db');
    AddMovesEffect(s4, remote, pid, d.detailedMoves, db');
  }

  /** `m` is the join row a record of `recs` gives for the move its name
      resolves to in `moves`. */
  ghost predicate MoveJoinOfRecords(moves: seq<MoveRow>, remote: Remote, pid: int, recs: seq<MoveRecord>, m: PokemonMoveRow) {
    exists k :: 0 <= k < |recs| && ResolvedMoveId(moves, remote, recs[k].name) == Some(m.moveId) &&
      m == MoveJoin(pid, m.moveId, recs[k])
  }

  /** The move rows of `pid` afterwards come from the learnable moves of
      the details and refer to stored moves; every record whose move was
      stored beforehand or can be fetched has one. When the fetched moves
      carry the names they were fetched by, the move rows of `pid` are
      exactly one per record, linked to the move its name resolves to. */
  lemma ApplyDetailsMoves(db: Db, remote: Remote, pid: int, d: Details, regionId: Option<int>, db': Db)
    requires ApplyDetails(db, remote, pid, d, regionId) == Success(db')
    ensures forall m :: m in db'.pokemonMoves && m.pokemonId == pid ==>
      m.moveId in MoveIds(db'.moves) && exists k :: 0 <= k < |d.detailedMoves| && m == MoveJoin(pid, m.moveId, d.detailedMoves[k])
    ensures forall k :: (0 <= k < |d.detailedMoves| &&
      (FirstWith(db.moves, MoveName, d.detailedMoves[k].name).Some? || GetMoveDetails(remote, d.detailedMoves[k].name).Some?)) ==>
      exists x :: MoveJoin(pid, x, d.detailedMoves[k]) in db'.pokemonMoves
    ensures NamedAsFetched(remote, d.detailedMoves) ==>
      forall m: PokemonMoveRow :: m.pokemonId == pid ==>
        (m in db'.pokemonMoves <==> MoveJoinOfRecords(db.moves, remote, pid, d.detailedMoves, m))
  {
    var db1 := db.(pokemon := db.pokemon[pid := PokemonRowOf(d, regionId)]);
    var s2 := db1.(pokemonTypes := WithoutTypesOf(db1.pokemonTypes, pid));
    var db2 := AddTypes(s2, pid, d.types).value;
    AddTypesFrame(s2, pid, d.types, db2);
    var s3 := db2.(pokemonAbilities := WithoutAbilitiesOf(db2.pokemonAbilities, pid));
    var db3 := AddAbilities(s3, remote, pid, d.abilities).value;
    AddAbilitiesFrame(s3, remote, pid, d.abilities, db3);
    var s4 := db3.(pokemonMoves := WithoutMovesOf(db3.pokemonMoves, pid));
    assert AddMoves(s4, remote, pid, d.detailedMoves) == Success(db');
    AddMovesEffect(s4, remote, pid, d.detailedMoves, db');
    assert s4.moves == db.moves;
    if NamedAsFetched(remote, d.detailedMoves) {
      forall m: PokemonMoveRow | m.pokemonId == pid
        ensures m in db'.pokemonMoves <==> MoveJoinOfRecords(db.moves, remote, pid, d.detailedMoves, m)
      {
        assert m !in s4.pokemonMoves;
        if MoveJoinOfRecords(db.moves, remote, pid, d.detailedMoves, m) {
          var k :| 0 <= k < |d.detailedMoves| && ResolvedMoveId(db.moves, remote, d.detailedMoves[k].name) == Some(m.moveId) &&
            m == MoveJoin(pid, m.moveId, d.detailedMoves[k]);
          assert m == MoveJoin(pid, ResolvedMoveId(s4.moves, remote, d.detailedMoves[k].name).value, d.detailedMoves[k]);
        }
      }
    }
  }
}
