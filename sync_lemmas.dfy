/** Properties of `sync_database`: the region step only adds names the
    store lacks, the stub phase never touches a stored Pokémon and commits
    in batches of at most 500, the deep phase updates only incomplete
    Pokémon and reports at a fixed stride, and the sync record always ends
    in "success" or "failed: ...". */
module SyncLemmas {
  import opened Wrappers
  import opened Collections
  import opened Models
  import opened Api
  import opened Database
  import opened DatabaseLemmas
  import opened UpdateLemmas

  // ---------------------------------------------------------------------
  // Regions

  /** The names to add come from the list, and every listed name the store
      lacks is among them. */
  lemma {:induction false} RegionsToAddMembers(regions: seq<RegionRow>, entries: seq<NamedRef>)
    ensures forall k :: 0 <= k < |RegionsToAdd(regions, entries)| ==>
      exists j :: 0 <= j < |entries| && entries[j].name == RegionsToAdd(regions, entries)[k]
    ensures forall j :: 0 <= j < |entries| && FirstWith(regions, RegionName, entries[j].name).None? ==>
      entries[j].name in RegionsToAdd(regions, entries)
    decreases |entries|
  {
    if entries != [] {
      var tail := entries[1..];
      RegionsToAddMembers(regions, tail);
      var names := RegionsToAdd(regions, entries);
      var rest := RegionsToAdd(regions, tail);
      forall k | 0 <= k < |names| ensures exists j :: 0 <= j < |entries| && entries[j].name == names[k] {
        if FirstWith(regions, RegionName, entries[0].name).None? && k == 0 {
          assert entries[0].name == names[0];
        } else {
          var kr := if FirstWith(regions, RegionName, entries[0].name).None? then k - 1 else k;
          assert names[k] == rest[kr];
          var j :| 0 <= j < |tail| && tail[j].name == rest[kr];
          assert entries[j + 1].name == names[k];
        }
      }

      forall j | 0 <= j < |entries| && FirstWith(regions, RegionName, entries[j].name).None?
        ensures entries[j].name in names
      {
        if j > 0 {
          assert entries[j] == tail[j - 1];
        }
      }
    } else {
      assert RegionsToAdd(regions, entries) == [];
    }
  }

  /** Appending rows for distinct names none of which is stored keeps the
      ids sequential and the names unique. */
  lemma AppendRegionRowsValid(regions: seq<RegionRow>, names: seq<string>)
    requires RegionsValid(regions) && !HasDuplicates(names)
    requires forall k :: 0 <= k < |names| ==> FirstWith(regions, RegionName, names[k]).None?
    ensures RegionsValid(regions + NewRegionRows(|regions|, names))
  {
    var rows := NewRegionRows(|regions|, names);
    assert forall k :: 0 <= k < |rows| ==> RegionKey(rows[k]) == |regions| + k + 1;
    AppendSequential(regions, rows, RegionKey);
    forall i, j | 0 <= i < j < |rows| ensures RegionName(rows[i]) != RegionName(rows[j]) {
      assert RegionName(rows[i]) == names[i] && RegionName(rows[j]) == names[j];
    }
    assert forall k :: 0 <= k < |rows| ==> RegionName(rows[k]) == names[k];
    AppendUnique(regions, rows, RegionName);
  }

  /** ... and stores every name. */
  lemma AppendRegionRowsFound(regions: seq<RegionRow>, names: seq<string>)
    ensures forall k :: 0 <= k < |names| ==>
      FirstWith(regions + NewRegionRows(|regions|, names), RegionName, names[k]).Some?
  {
    var rows := NewRegionRows(|regions|, names);
    assert forall k :: 0 <= k < |rows| ==> RegionName(rows[k]) == names[k];
    FirstWithAppendKeys(regions, rows, RegionName, names);
  }

  /** Region step of the sync: only the regions table changes, by appending;
      every region it adds is a listed name the store lacked; and unless a
      name is listed twice, afterwards every listed name is stored (a name
      listed twice makes the whole insert fail and nothing is added). */
  lemma SyncRegionsEffect(db: Db, remote: Remote)
    ensures SyncRegions(db, remote) == db.(regions := SyncRegions(db, remote).regions)
    ensures Prefix(db.regions, SyncRegions(db, remote).regions)
    ensures RegionsValid(db.regions) ==> RegionsValid(SyncRegions(db, remote).regions)
    ensures forall k :: |db.regions| <= k < |SyncRegions(db, remote).regions| ==>
      && FirstWith(db.regions, RegionName, SyncRegions(db, remote).regions[k].name).None?
      && exists j :: 0 <= j < |GetRegions(remote)| && GetRegions(remote)[j].name == SyncRegions(db, remote).regions[k].name
    ensures !HasDuplicates(RegionsToAdd(db.regions, GetRegions(remote))) ==>
      forall j :: 0 <= j < |GetRegions(remote)| ==>
        FirstWith(SyncRegions(db, remote).regions, RegionName, GetRegions(remote)[j].name).Some?
    ensures HasDuplicates(RegionsToAdd(db.regions, GetRegions(remote))) ==> SyncRegions(db, remote) == db
  {
    var entries := GetRegions(remote);
    var names := RegionsToAdd(db.regions, entries);
    var r := SyncRegions(db, remote);
    RegionsToAddMembers(db.regions, entries);
    if names != [] && !HasDuplicates(names) {
      var rows := NewRegionRows(|db.regions|, names);
      assert r.regions == db.regions + rows;
      if RegionsValid(db.regions) {
        AppendRegionRowsValid(db.regions, names);
      }
      AppendRegionRowsFound(db.regions, names);
      forall k | |db.regions| <= k < |r.regions|
        ensures FirstWith(db.regions, RegionName, r.regions[k].name).None?
        ensures exists j :: 0 <= j < |entries| && entries[j].name == r.regions[k].name
      {
        assert r.regions[k] == rows[k - |db.regions|];
      }
      forall j | 0 <= j < |entries| ensures FirstWith(r.regions, RegionName, entries[j].name).Some? {
        if FirstWith(db.regions, RegionName, entries[j].name).Some? {
          FoundStaysFound(db.regions, r.regions, RegionName, entries[j].name);
        } else {
          var k :| 0 <= k < |names| && names[k] == entries[j].name;
        }
      }
    } else if names == [] {
      assert forall j :: 0 <= j < |entries| ==> FirstWith(r.regions, RegionName, entries[j].name).Some?;
    }
  }

  // ---------------------------------------------------------------------
  // Stubs

  /** The stubs of two lists one after the other are the stubs of each. */
  lemma {:induction false} CollectStubsAppend(a: seq<NamedRef>, b: seq<NamedRef>, existing: set<int>)
    ensures CollectStubs(a + b, existing) == CollectStubs(a, existing) + CollectStubs(b, existing)
    decreases |a|
  {
    if a == [] {
      assert a + b == b;
    } else {
      assert (a + b)[0] == a[0] && (a + b)[1..] == a[1..] + b;
      CollectStubsAppend(a[1..], b, existing);
    }
  }

  /** One step of the species loop: the stubs of the first i + 1 entries are
      the stubs of the first i followed by the stub of entry i. */
  lemma CollectStubsSnoc(species: seq<NamedRef>, i: nat, existing: set<int>)
    requires i < |species|
    ensures CollectStubs(species[..i + 1], existing) ==
      CollectStubs(species[..i], existing) + EntryStub(species[i], existing)
  {
    assert species[..i + 1] == species[..i] + [species[i]];
    CollectStubsAppend(species[..i], [species[i]], existing);
    assert [species[i]][1..] == [];
  }

  lemma {:induction false} StubsFromList(species: seq<NamedRef>, existing: set<int>)
    ensures forall k :: 0 <= k < |CollectStubs(species, existing)| ==>
      exists j :: 0 <= j < |species| && StubFrom(species[j], CollectStubs(species, existing)[k])
    decreases |species|
  {
    if species != [] {
      var tail := species[1..];
      StubsFromList(tail, existing);
      var head := EntryStub(species[0], existing);
      var stubs := CollectStubs(species, existing);
      var rest := CollectStubs(tail, existing);
      assert stubs == head + rest;
      forall k | 0 <= k < |stubs| ensures exists j :: 0 <= j < |species| && StubFrom(species[j], stubs[k]) {
        if k >= |head| {
          assert stubs[k] == rest[k - |head|];
          var j :| 0 <= j < |tail| && StubFrom(tail[j], rest[k - |head|]);
          assert tail[j] == species[j + 1];
        } else {
          assert StubFrom(species[0], stubs[k]);
        }
      }
    } else {
      assert CollectStubs(species, existing) == [];
    }
  }

  /** Every new species of the list gets its stub. */
  lemma {:induction false} StubsCoverList(species: seq<NamedRef>, existing: set<int>)
    ensures forall j :: 0 <= j < |species| && EntryStub(species[j], existing) != [] ==>
      EntryStub(species[j], existing)[0] in CollectStubs(species, existing)
    decreases |species|
  {
    if species != [] {
      var tail := species[1..];
      StubsCoverList(tail, existing);
      var head := EntryStub(species[0], existing);
      assert CollectStubs(species, existing) == head + CollectStubs(tail, existing);
      forall j | 1 <= j < |species| ensures species[j] == tail[j - 1] {
      }
    }
  }

  /** No stub is made exactly when the list holds no new species: in
      particular a second sync of the same list adds none. */
  lemma NoStubsIff(species: seq<NamedRef>, existing: set<int>)
    ensures CollectStubs(species, existing) == [] <==>
      forall j :: 0 <= j < |species| ==> !NewSpecies(species[j], existing)
  {
    StubsFromList(species, existing);
    StubsCoverList(species, existing);
    var stubs := CollectStubs(species, existing);
    if stubs != [] {
      var j :| 0 <= j < |species| && StubFrom(species[j], stubs[0]);
      assert NewSpecies(species[j], existing);
    }
  }

  /** A species URL ending in "/<id>/" gives a stub with that id. */
  lemma StubOfSpeciesUrl(prefix: string, id: int, name: string, existing: set<int>)
    requires id !in existing
    ensures CollectStubs([NamedRef(name, prefix + "/" + Text.IntToString(id) + "/")], existing) ==
      [StubRow(id, Stub(name, prefix + "/" + Text.IntToString(id) + "/", SpriteUrl(id)))]
  {
    UrlIdRoundTrip(prefix, id);
    var e := NamedRef(name, prefix + "/" + Text.IntToString(id) + "/");
    assert [e][1..] == [];
  }

  // ---------------------------------------------------------------------
  // Batches

  function Concat(bs: seq<seq<StubRow>>): seq<StubRow> {
    if bs == [] then [] else bs[0] + Concat(bs[1..])
  }

  /** The batches cut the stubs into consecutive pieces of 500, the last one
      possibly shorter, none empty: ceil(n / 500) of them. */
  lemma {:induction false} BatchesPartition(stubs: seq<StubRow>)
    ensures Concat(Batches(stubs)) == stubs
    ensures forall k :: 0 <= k < |Batches(stubs)| ==> 0 < |Batches(stubs)[k]| <= BatchSize
    ensures forall k :: 0 <= k < |Batches(stubs)| - 1 ==> |Batches(stubs)[k]| == BatchSize
    ensures |Batches(stubs)| == (|stubs| + BatchSize - 1) / BatchSize
    decreases |stubs|
  {
    if stubs != [] {
      var n := if |stubs| < BatchSize then |stubs| else BatchSize;
      var rest := stubs[n..];
      BatchesPartition(rest);
      var bs := Batches(stubs);
      assert bs == [stubs[..n]] + Batches(rest);
      assert bs[1..] == Batches(rest);
      assert stubs[..n] + rest == stubs;
      forall k | 0 <= k < |bs| ensures 0 < |bs[k]| <= BatchSize {
        if k > 0 { assert bs[k] == Batches(rest)[k - 1]; }
      }
      forall k | 0 <= k < |bs| - 1 ensures |bs[k]| == BatchSize {
        if k > 0 { assert bs[k] == Batches(rest)[k - 1]; }
        else { assert |rest| > 0; }
      }
    }
  }

  /** One batch: only the Pokémon table changes, stored rows stay, and every
      new row is one of the batch's stubs; on success all of them are stored. */
  lemma {:induction false} InsertBatchEffect(db: Db, batch: seq<StubRow>)
    ensures InsertBatch(db, batch).Success? ==> InsertBatch(db, batch).value == db.(pokemon := InsertBatch(db, batch).value.pokemon)
    ensures InsertBatch(db, batch).Success? ==> forall id :: id in db.pokemon ==>
      id in InsertBatch(db, batch).value.pokemon && InsertBatch(db, batch).value.pokemon[id] == db.pokemon[id]
    ensures InsertBatch(db, batch).Success? ==> forall id :: id in InsertBatch(db, batch).value.pokemon ==>
      id in db.pokemon || exists k :: 0 <= k < |batch| && batch[k] == StubRow(id, InsertBatch(db, batch).value.pokemon[id])
    ensures InsertBatch(db, batch).Success? ==> forall k :: 0 <= k < |batch| ==> batch[k].id in InsertBatch(db, batch).value.pokemon
    ensures InsertBatch(db, batch).Failure? ==> InsertBatch(db, batch).error == UniqueViolation("pokemon")
    decreases |batch|
  {
    if batch != [] && batch[0].id !in db.pokemon {
      var db1 := db.(pokemon := db.pokemon[batch[0].id := batch[0].row]);
      var tail := batch[1..];
      InsertBatchEffect(db1, tail);
      if InsertBatch(db1, tail).Success? {
        var db' := InsertBatch(db1, tail).value;
        forall id | id in db'.pokemon
          ensures id in db.pokemon || exists k :: 0 <= k < |batch| && batch[k] == StubRow(id, db'.pokemon[id])
        {
          if id !in db1.pokemon {
            var k :| 0 <= k < |tail| && tail[k] == StubRow(id, db'.pokemon[id]);
            assert batch[k + 1] == tail[k];
          } else if id !in db.pokemon {
            assert id == batch[0].id;
            assert batch[0] == StubRow(id, db'.pokemon[id]);
          }
        }
        forall k | 0 <= k < |batch| ensures batch[k].id in db'.pokemon {
          if k > 0 { assert batch[k] == tail[k - 1]; }
        }
      }
    }
  }

  /** All batches: only the Pokémon table changes, stored rows stay, every
      new row is one of the stubs, a failure is the primary key of
      `pokemon`, and without one every stub is stored. */
  lemma {:induction false} InsertBatchesEffect(db: Db, bs: seq<seq<StubRow>>, r: BatchRun)
    requires InsertBatches(db, bs) == r
    ensures r.db == db.(pokemon := r.db.pokemon)
    ensures forall id :: id in db.pokemon ==> id in r.db.pokemon && r.db.pokemon[id] == db.pokemon[id]
    ensures forall id :: id in r.db.pokemon ==>
      id in db.pokemon || exists k :: 0 <= k < |Concat(bs)| && Concat(bs)[k] == StubRow(id, r.db.pokemon[id])
    ensures r.error.None? ==> forall k :: 0 <= k < |Concat(bs)| ==> Concat(bs)[k].id in r.db.pokemon
    ensures r.error.Some? ==> r.error.value == UniqueViolation("pokemon")
    decreases |bs|
  {
    if bs != [] {
      InsertBatchEffect(db, bs[0]);
      if InsertBatch(db, bs[0]).Success? {
        var db1 := InsertBatch(db, bs[0]).value;
        var tail := bs[1..];
        InsertBatchesEffect(db1, tail, r);
        var all := Concat(bs);
        assert all == bs[0] + Concat(tail);
        forall id | id in r.db.pokemon
          ensures id in db.pokemon || exists k :: 0 <= k < |all| && all[k] == StubRow(id, r.db.pokemon[id])
        {
          if id !in db1.pokemon {
            var k :| 0 <= k < |Concat(tail)| && Concat(tail)[k] == StubRow(id, r.db.pokemon[id]);
            assert all[|bs[0]| + k] == Concat(tail)[k];
          } else if id !in db.pokemon {
            var k :| 0 <= k < |bs[0]| && bs[0][k] == StubRow(id, db1.pokemon[id]);
            assert all[k] == bs[0][k];
          }
        }
        if r.error.None? {
          forall k | 0 <= k < |all| ensures all[k].id in r.db.pokemon {
            if k >= |bs[0]| {
              assert all[k] == Concat(tail)[k - |bs[0]|];
            } else {
              assert all[k] == bs[0][k];
            }
          }
        }
      }
    }
  }

  /** Every stub has no region. */
  lemma {:induction false} StubsHaveNoRegion(species: seq<NamedRef>, existing: set<int>)
    ensures forall k :: 0 <= k < |CollectStubs(species, existing)| ==> CollectStubs(species, existing)[k].row.regionId.None?
  {
    StubsFromList(species, existing);
  }

  /** Inserting stubs, which name no region, keeps every constraint. */
  lemma InsertBatchesValid(db: Db, bs: seq<seq<StubRow>>)
    requires DbValid(db)
    requires forall k :: 0 <= k < |Concat(bs)| ==> Concat(bs)[k].row.regionId.None?
    ensures DbValid(InsertBatches(db, bs).db)
  {
    var r := InsertBatches(db, bs);
    InsertBatchesEffect(db, bs, r);
  }

  // ---------------------------------------------------------------------
  // Progress calls

  /** The calls at a stride: exactly the indices in [lo, n) that the stride
      divides, each with the given total. */
  lemma {:induction false} StrideEventsMembers(lo: nat, n: nat, stride: nat, total: int)
    requires stride > 0
    ensures forall k :: 0 <= k < |StrideEvents(lo, n, stride, total)| ==>
      && lo <= StrideEvents(lo, n, stride, total)[k].current < n
      && StrideEvents(lo, n, stride, total)[k].current % stride == 0
      && StrideEvents(lo, n, stride, total)[k].total == total
    ensures forall c: nat :: lo <= c < n && c % stride == 0 ==> Progress(c, total) in StrideEvents(lo, n, stride, total)
    decreases n - lo
  {
    if lo < n {
      StrideEventsMembers(lo + 1, n, stride, total);
      var head: seq<Progress> := if lo % stride == 0 then [Progress(lo, total)] else [];
      var rest := StrideEvents(lo + 1, n, stride, total);
      assert StrideEvents(lo, n, stride, total) == head + rest;
      forall k | 0 <= k < |head + rest|
        ensures lo <= (head + rest)[k].current < n && (head + rest)[k].current % stride == 0
      {
        if k >= |head| { assert (head + rest)[k] == rest[k - |head|]; }
      }
    }
  }

  /** One step of the deep phase: a failed update stops it with that error,
      otherwise the rest of the ids follow from the updated state, after the
      progress call for this index. */
  lemma DeepSyncCons(db: Db, remote: Remote, ids: seq<int>, i: nat, report: bool, total: int)
    requires ids != []
    ensures DeepStep(db, remote, ids[0]).outcome.Failed? ==>
      DeepSync(db, remote, ids, i, report, total) ==
        DeepRun(DeepStep(db, remote, ids[0]).db, [], Some(DeepStep(db, remote, ids[0]).outcome.error))
    ensures !DeepStep(db, remote, ids[0]).outcome.Failed? ==>
      var rest := DeepSync(DeepStep(db, remote, ids[0]).db, remote, ids[1..], i + 1, report, total);
      DeepSync(db, remote, ids, i, report, total) ==
        DeepRun(rest.db, (if report && i % 10 == 0 then [Progress(i, total)] else []) + rest.events, rest.error)
  {
  }

  /** Extending the range by one index adds that index's call at the end. */
  lemma {:induction false} StrideEventsSnoc(lo: nat, n: nat, stride: nat, total: int)
    requires stride > 0 && lo <= n
    ensures StrideEvents(lo, n + 1, stride, total) ==
      StrideEvents(lo, n, stride, total) + (if n % stride == 0 then [Progress(n, total)] else [])
    decreases n - lo
  {
    if lo < n {
      StrideEventsSnoc(lo + 1, n, stride, total);
    }
  }

  lemma StrideEventsSplit(lo: nat, n: nat, stride: nat, total: int)
    requires stride > 0 && lo < n
    ensures StrideEvents(lo, n, stride, total) ==
      (if lo % stride == 0 then [Progress(lo, total)] else []) + StrideEvents(lo + 1, n, stride, total)
  {
  }

  // ---------------------------------------------------------------------
  // The deep phase

  /** The deep phase reports at every tenth index it gets past, with the
      total it was given; when nothing fails that is every tenth index of
      the list, and nothing at all without a callback. */
  lemma {:induction false} DeepEvents(db: Db, remote: Remote, ids: seq<int>, i: nat, report: bool, total: int, r: DeepRun)
    requires DeepSync(db, remote, ids, i, report, total) == r
    ensures forall k :: 0 <= k < |r.events| ==>
      r.events[k].current % 10 == 0 && i <= r.events[k].current < i + |ids| && r.events[k].total == total
    ensures !report ==> r.events == []
    ensures r.error.None? ==> r.events == (if report then StrideEvents(i, i + |ids|, 10, total) else [])
    decreases |ids|
  {
    if ids != [] {
      var u := DeepStep(db, remote, ids[0]);
      if !u.outcome.Failed? {
        var rest := DeepSync(u.db, remote, ids[1..], i + 1, report, total);
        DeepEvents(u.db, remote, ids[1..], i + 1, report, total, rest);
        var event: seq<Progress> := if report && i % 10 == 0 then [Progress(i, total)] else [];
        assert r.events == event + rest.events;
        forall k | 0 <= k < |r.events|
          ensures r.events[k].current % 10 == 0 && i <= r.events[k].current < i + |ids| && r.events[k].total == total
        {
          if k >= |event| { assert r.events[k] == rest.events[k - |event|]; }
        }
        if r.error.None? && report {
          StrideEventsSplit(i, i + |ids|, 10, total);
        }
      }
    }
  }

  /** The deep phase keeps every constraint of the schema. */
  lemma {:induction false} DeepValid(db: Db, remote: Remote, ids: seq<int>, i: nat, report: bool, total: int)
    requires DbValid(db)
    ensures DbValid(DeepSync(db, remote, ids, i, report, total).db)
    decreases |ids|
  {
    if ids != [] {
      if !Complete(db, ids[0]) {
        UpdateKeepsValid(db, remote, ids[0], None);
      }
      var u := DeepStep(db, remote, ids[0]);
      if !u.outcome.Failed? {
        DeepValid(u.db, remote, ids[1..], i + 1, report, total);
      }
    }
  }

  /** The row and join rows of `x` as a value, to compare two states. */
  ghost predicate SamePokemon(db: Db, db': Db, x: int) {
    && (x in db'.pokemon <==> x in db.pokemon)
    && (x in db.pokemon ==> db'.pokemon[x] == db.pokemon[x])
    && (forall t: PokemonTypeRow :: t.pokemonId == x ==> (t in db'.pokemonTypes <==> t in db.pokemonTypes))
    && (forall a: PokemonAbilityRow :: a.pokemonId == x ==> (a in db'.pokemonAbilities <==> a in db.pokemonAbilities))
    && (forall m: PokemonMoveRow :: m.pokemonId == x ==> (m in db'.pokemonMoves <==> m in db.pokemonMoves))
  }

  lemma SamePokemonTrans(db: Db, db1: Db, db2: Db, x: int)
    requires SamePokemon(db, db1, x) && SamePokemon(db1, db2, x)
    ensures SamePokemon(db, db2, x)
  {
  }

  /** A complete Pokémon stays complete while its row and join rows stay and
      regions are only appended. */
  lemma CompleteStays(db: Db, db': Db, x: int)
    requires Complete(db, x) && SamePokemon(db, db', x) && Prefix(db.regions, db'.regions)
    ensures Complete(db', x)
  {
    CompleteIff(Record(db, x));
    var p := Record(db, x).value;
    var q := Record(db', x).value;
    var t := NonEmptyMember(p.types);
    assert t in q.types;
    var a := NonEmptyMember(p.abilities);
    assert a in q.abilities;
    var m := NonEmptyMember(p.moves);
    assert m in q.moves;
    CompleteIff(Record(db', x));
  }

  /** The deep phase leaves a complete Pokémon as it was. */
  lemma {:induction false} DeepKeepsComplete(db: Db, remote: Remote, ids: seq<int>, i: nat, report: bool, total: int, x: int)
    requires Complete(db, x)
    ensures Complete(DeepSync(db, remote, ids, i, report, total).db, x)
    ensures SamePokemon(db, DeepSync(db, remote, ids, i, report, total).db, x)
    ensures Prefix(db.regions, DeepSync(db, remote, ids, i, report, total).db.regions)
    decreases |ids|
  {
    if ids != [] {
      var u := DeepStep(db, remote, ids[0]);
      if !Complete(db, ids[0]) {
        assert ids[0] != x;
        UpdateFrame(db, remote, ids[0], None, x);
        CompleteStays(db, u.db, x);
      }
      assert SamePokemon(db, u.db, x) && Prefix(db.regions, u.db.regions);
      if !u.outcome.Failed? {
        var rest := DeepSync(u.db, remote, ids[1..], i + 1, report, total);
        DeepKeepsComplete(u.db, remote, ids[1..], i + 1, report, total, x);
        SamePokemonTrans(db, u.db, rest.db, x);
        PrefixTrans(db.regions, u.db.regions, rest.db.regions);
      }
    }
  }

  /** The deep phase never changes the sync record. */
  lemma {:induction false} DeepKeepsSyncInfo(db: Db, remote: Remote, ids: seq<int>, i: nat, report: bool, total: int)
    ensures DeepSync(db, remote, ids, i, report, total).db.syncInfo == db.syncInfo
    decreases |ids|
  {
    if ids != [] {
      if !Complete(db, ids[0]) {
        UpdateFrame(db, remote, ids[0], None, ids[0] + 1);
      }
      var u := DeepStep(db, remote, ids[0]);
      if !u.outcome.Failed? {
        DeepKeepsSyncInfo(u.db, remote, ids[1..], i + 1, report, total);
      }
    }
  }

  // ---------------------------------------------------------------------
  // The sync as a whole

  /** The stub phase: only the regions, the Pokémon table and the sync
      record change; stored rows stay, and regions are only appended. */
  lemma StubPhaseEffect(db: Db, remote: Remote)
    ensures var b := StubPhase(db, remote).db;
      && b.syncInfo == EnsureSyncInfo(db).syncInfo
      && (forall id :: id in db.pokemon ==> id in b.pokemon && b.pokemon[id] == db.pokemon[id])
      && b.pokemonTypes == db.pokemonTypes && b.pokemonAbilities == db.pokemonAbilities
      && b.pokemonMoves == db.pokemonMoves && b.types == db.types && b.abilities == db.abilities
      && b.moves == db.moves
      && Prefix(db.regions, b.regions)
      && (StubPhase(db, remote).error.Some? ==> StubPhase(db, remote).error.value == UniqueViolation("pokemon"))
  {
    var db1 := EnsureSyncInfo(db);
    SyncRegionsEffect(db1, remote);
    var db2 := SyncRegions(db1, remote);
    var stubs := CollectStubs(GetAllPokemonSpeciesNames(remote), db2.pokemon.Keys);
    InsertBatchesEffect(db2, Batches(stubs), StubPhase(db, remote));
    PrefixTrans(db.regions, db2.regions, StubPhase(db, remote).db.regions);
  }

  /** After the stub phase without error, every listed species whose id can
      be read from its URL is stored, and every new row is a stub of one of
      them. */
  lemma StubPhaseStores(db: Db, remote: Remote)
    ensures var species := GetAllPokemonSpeciesNames(remote);
      var b := StubPhase(db, remote);
      && (b.error.None? ==> forall j :: 0 <= j < |species| && UrlId(species[j].url).Some? ==>
            UrlId(species[j].url).value in b.db.pokemon)
      && (forall id :: id in b.db.pokemon && id !in db.pokemon ==>
            exists j :: 0 <= j < |species| && StubFrom(species[j], StubRow(id, b.db.pokemon[id])))
  {
    StubPhaseCoversList(db, remote);
    StubPhaseRowsFromList(db, remote);
  }

  /** After the stub phase without error, every listed species whose id can
      be read from its URL is stored. */
  lemma StubPhaseCoversList(db: Db, remote: Remote)
    ensures var species := GetAllPokemonSpeciesNames(remote);
      var b := StubPhase(db, remote);
      b.error.None? ==> forall j :: 0 <= j < |species| && UrlId(species[j].url).Some? ==>
        UrlId(species[j].url).value in b.db.pokemon
  {
    var db1 := EnsureSyncInfo(db);
    SyncRegionsEffect(db1, remote);
    var db2 := SyncRegions(db1, remote);
    var species := GetAllPokemonSpeciesNames(remote);
    var stubs := CollectStubs(species, db2.pokemon.Keys);
    var b := StubPhase(db, remote);
    BatchesPartition(stubs);
    InsertBatchesEffect(db2, Batches(stubs), b);
    StubsCoverList(species, db2.pokemon.Keys);
    if b.error.None? {
      StoredCoverList(db2.pokemon, b.db.pokemon, stubs, species);
    }
  }

  /** When every stub is stored and no stored row is lost, every listed
      species with an id is stored afterwards. */
  lemma StoredCoverList(before: map<int, PokemonRow>, after: map<int, PokemonRow>, stubs: seq<StubRow>, species: seq<NamedRef>)
    requires forall id :: id in before ==> id in after
    requires forall k :: 0 <= k < |stubs| ==> stubs[k].id in after
    requires forall j :: 0 <= j < |species| && EntryStub(species[j], before.Keys) != [] ==>
      EntryStub(species[j], before.Keys)[0] in stubs
    ensures forall j :: 0 <= j < |species| && UrlId(species[j].url).Some? ==> UrlId(species[j].url).value in after
  {
    forall j | 0 <= j < |species| && UrlId(species[j].url).Some?
      ensures UrlId(species[j].url).value in after
    {
      if UrlId(species[j].url).value !in before.Keys {
        var x := EntryStub(species[j], before.Keys)[0];
        var k :| 0 <= k < |stubs| && stubs[k] == x;
      }
    }
  }

  /** Every row the stub phase adds is a stub of a listed species. */
  lemma StubPhaseRowsFromList(db: Db, remote: Remote)
    ensures var species := GetAllPokemonSpeciesNames(remote);
      var b := StubPhase(db, remote);
      forall id :: id in b.db.pokemon && id !in db.pokemon ==>
        exists j :: 0 <= j < |species| && StubFrom(species[j], StubRow(id, b.db.pokemon[id]))
  {
    var db1 := EnsureSyncInfo(db);
    SyncRegionsEffect(db1, remote);
    var db2 := SyncRegions(db1, remote);
    var species := GetAllPokemonSpeciesNames(remote);
    var stubs := CollectStubs(species, db2.pokemon.Keys);
    var b := StubPhase(db, remote);
    BatchesPartition(stubs);
    InsertBatchesEffect(db2, Batches(stubs), b);
    StubsFromList(species, db2.pokemon.Keys);
    NewRowsFromList(db2.pokemon, b.db.pokemon, stubs, species);
  }

  /** A row added from stubs, each of which comes from a listed species,
      comes from a listed species. */
  lemma NewRowsFromList(before: map<int, PokemonRow>, after: map<int, PokemonRow>, stubs: seq<StubRow>, species: seq<NamedRef>)
    requires forall id :: id in after ==>
      id in before || exists k :: 0 <= k < |stubs| && stubs[k] == StubRow(id, after[id])
    requires forall k :: 0 <= k < |stubs| ==> exists j :: 0 <= j < |species| && StubFrom(species[j], stubs[k])
    ensures forall id :: id in after && id !in before ==>
      exists j :: 0 <= j < |species| && StubFrom(species[j], StubRow(id, after[id]))
  {
    forall id | id in after && id !in before
      ensures exists j :: 0 <= j < |species| && StubFrom(species[j], StubRow(id, after[id]))
    {
      var k :| 0 <= k < |stubs| && stubs[k] == StubRow(id, after[id]);
      var j :| 0 <= j < |species| && StubFrom(species[j], stubs[k]);
    }
  }

  /** The sync record at the end: "success" stamped with the clock, or
      "failed: " and the error, with the time of the last sync kept, which is
      `datetime.min` when there was no record. The error is never raised. */
  lemma SyncStatus(db: Db, remote: Remote, background: bool, hasCallback: bool, now: int)
    ensures SyncSpec(db, remote, background, hasCallback, now).db.syncInfo.Some?
    ensures var s := SyncSpec(db, remote, background, hasCallback, now).db.syncInfo.value;
      || s == SyncInfo(At(now), "success")
      || (&& |s.status| >= 8 && s.status[..8] == "failed: "
          && s.lastSync == (if db.syncInfo.Some? then db.syncInfo.value.lastSync else MinTime))
  {
    var info := EnsureSyncInfo(db).syncInfo.value;
    assert info.lastSync == (if db.syncInfo.Some? then db.syncInfo.value.lastSync else MinTime);
    var d, e := SyncEndsWith(db, remote, background, hasCallback, now);
    if e.Some? {
      FailedWithRecord(d, info, e.value);
    }
  }

  /** The store at the end of a sync is the stamped store of one of the
      phases or one of them with the failure recorded. */
  lemma SyncEndsWith(db: Db, remote: Remote, background: bool, hasCallback: bool, now: int)
      returns (d: Db, e: Option<StoreError>)
    ensures e.None? ==> SyncSpec(db, remote, background, hasCallback, now).db == Succeeded(d, now)
    ensures e.Some? ==>
      SyncSpec(db, remote, background, hasCallback, now).db == FailedWith(d, EnsureSyncInfo(db).syncInfo.value, e.value)
    ensures d == if StubPhase(db, remote).error.Some? || !background then StubPhase(db, remote).db
      else DeepPhase(StubPhase(db, remote).db, remote, hasCallback).db
    ensures SyncSpec(db, remote, background, hasCallback, now).db ==
      d.(syncInfo := SyncSpec(db, remote, background, hasCallback, now).db.syncInfo)
  {
    var b := StubPhase(db, remote);
    if b.error.Some? || !background {
      d, e := b.db, b.error;
    } else {
      var deep := DeepPhase(b.db, remote, hasCallback);
      d, e := deep.db, deep.error;
    }
  }

  /** A failure record starts with "failed: " and keeps the time of the last sync. */
  lemma FailedWithRecord(d: Db, info: SyncInfo, e: StoreError)
    ensures FailedWith(d, info, e).syncInfo.Some?
    ensures var s := FailedWith(d, info, e).syncInfo.value;
      |s.status| >= 8 && s.status[..8] == "failed: " && s.lastSync == info.lastSync
  {
    var s := FailedWith(d, info, e).syncInfo.value;
    assert s.status == "failed: " + ErrorText(e);
  }

  /** A failed stub phase is reported as "failed: " and the primary key of `pokemon`. */
  lemma SyncStubFailure(db: Db, remote: Remote, background: bool, hasCallback: bool, now: int)
    requires StubPhase(db, remote).error.Some?
    ensures SyncSpec(db, remote, background, hasCallback, now).db.syncInfo.value.status ==
      "failed: " + ErrorText(UniqueViolation("pokemon"))
  {
    StubPhaseEffect(db, remote);
  }

  /** Without `background` there is no deep phase and no progress call;
      every stored Pokémon keeps its row and its join rows. */
  lemma SyncForeground(db: Db, remote: Remote, hasCallback: bool, now: int)
    ensures SyncSpec(db, remote, false, hasCallback, now).events == []
    ensures forall id :: id in db.pokemon ==>
      id in SyncSpec(db, remote, false, hasCallback, now).db.pokemon &&
      SyncSpec(db, remote, false, hasCallback, now).db.pokemon[id] == db.pokemon[id]
    ensures SyncSpec(db, remote, false, hasCallback, now).db.pokemonTypes == db.pokemonTypes
    ensures SyncSpec(db, remote, false, hasCallback, now).db.pokemonAbilities == db.pokemonAbilities
    ensures SyncSpec(db, remote, false, hasCallback, now).db.pokemonMoves == db.pokemonMoves
  {
    StubPhaseEffect(db, remote);
  }

  /** The progress calls of the deep phase: every tenth stored id, counted
      in ascending order, with their number; all of them when nothing fails,
      and none without a callback. */
  lemma DeepPhaseEvents(db: Db, remote: Remote, hasCallback: bool)
    ensures var deep := DeepPhase(db, remote, hasCallback);
      && (forall k :: 0 <= k < |deep.events| ==> deep.events[k].current % 10 == 0)
      && (!hasCallback ==> deep.events == [])
      && (deep.error.None? && hasCallback ==> deep.events == StrideEvents(0, |db.pokemon|, 10, |db.pokemon|))
  {
    var ids := SortedIds(db.pokemon.Keys);
    assert |ids| == |db.pokemon|;
    DeepEvents(db, remote, ids, 0, hasCallback, |ids|, DeepPhase(db, remote, hasCallback));
  }

  /** With `background`, the progress calls of the stub phase come first,
      then those of the deep phase when the stubs were stored. */
  lemma SyncEventsSplit(db: Db, remote: Remote, hasCallback: bool, now: int)
    ensures SyncSpec(db, remote, true, hasCallback, now).events ==
      StubEvents(remote, true, hasCallback) +
      (if StubPhase(db, remote).error.None? then DeepPhase(StubPhase(db, remote).db, remote, hasCallback).events else [])
  {
    var stubEvents := StubEvents(remote, true, hasCallback);
    assert stubEvents + [] == stubEvents;
  }

  /** Progress calls after a prefix, all at a multiple of ten. */
  lemma TenthAfter(a: seq<Progress>, d: seq<Progress>)
    requires forall k :: 0 <= k < |d| ==> d[k].current % 10 == 0
    ensures (a + d)[..|a|] == a && (a + d)[|a|..] == d
    ensures forall k :: |a| <= k < |a + d| ==> (a + d)[k].current % 10 == 0
  {
    forall k | |a| <= k < |a + d| ensures (a + d)[k].current % 10 == 0 {
      assert (a + d)[k] == d[k - |a|];
    }
  }

  /** With `background`, the progress calls are those of the stub phase, one
      at every hundredth species index, followed by the deep phase's, at
      every tenth stored id; all of them when nothing fails, and none at all
      without a callback. */
  lemma SyncEvents(db: Db, remote: Remote, hasCallback: bool, now: int)
    ensures var events := SyncSpec(db, remote, true, hasCallback, now).events;
      var stubEvents := StubEvents(remote, true, hasCallback);
      && |stubEvents| <= |events| && events[..|stubEvents|] == stubEvents
      && (forall k :: |stubEvents| <= k < |events| ==> events[k].current % 10 == 0)
      && (!hasCallback ==> events == [])
      && (var b := StubPhase(db, remote);
          b.error.None? && DeepPhase(b.db, remote, hasCallback).error.None? && hasCallback ==>
            events[|stubEvents|..] == StrideEvents(0, |b.db.pokemon|, 10, |b.db.pokemon|))
  {
    SyncEventsSplit(db, remote, hasCallback, now);
    var b := StubPhase(db, remote);
    var d := if b.error.None? then DeepPhase(b.db, remote, hasCallback).events else [];
    if b.error.None? {
      DeepPhaseEvents(b.db, remote, hasCallback);
    }
    TenthAfter(StubEvents(remote, true, hasCallback), d);
  }

  /** The stub phase keeps every constraint of the schema. */
  lemma StubPhaseValid(db: Db, remote: Remote)
    requires DbValid(db)
    ensures DbValid(StubPhase(db, remote).db)
  {
    var db1 := EnsureSyncInfo(db);
    SyncRegionsEffect(db1, remote);
    var db2 := SyncRegions(db1, remote);
    assert DbValid(db2);
    var species := GetAllPokemonSpeciesNames(remote);
    var stubs := CollectStubs(species, db2.pokemon.Keys);
    BatchesPartition(stubs);
    StubsHaveNoRegion(species, db2.pokemon.Keys);
    InsertBatchesValid(db2, Batches(stubs));
  }

  /** The sync record is not part of any constraint. */
  lemma ValidIgnoresSyncInfo(db: Db, info: Option<SyncInfo>)
    requires DbValid(db)
    ensures DbValid(db.(syncInfo := info))
  {
  }

  /** A sync keeps every constraint of the schema. */
  lemma SyncKeepsValid(db: Db, remote: Remote, background: bool, hasCallback: bool, now: int)
    requires DbValid(db)
    ensures DbValid(SyncSpec(db, remote, background, hasCallback, now).db)
  {
    var d, e := SyncEndsWith(db, remote, background, hasCallback, now);
    StubPhaseValid(db, remote);
    var b := StubPhase(db, remote);
    if b.error.None? && background {
      var ids := SortedIds(b.db.pokemon.Keys);
      DeepValid(b.db, remote, ids, 0, hasCallback, |ids|);
    }
    ValidIgnoresSyncInfo(d, SyncSpec(db, remote, background, hasCallback, now).db.syncInfo);
  }

  /** A Pokémon complete before a sync is left exactly as it was. */
  lemma SyncKeepsComplete(db: Db, remote: Remote, background: bool, hasCallback: bool, now: int, x: int)
    requires Complete(db, x)
    ensures Complete(SyncSpec(db, remote, background, hasCallback, now).db, x)
    ensures x in SyncSpec(db, remote, background, hasCallback, now).db.pokemon
    ensures SyncSpec(db, remote, background, hasCallback, now).db.pokemon[x] == db.pokemon[x]
  {
    var d, e := SyncEndsWith(db, remote, background, hasCallback, now);
    StubPhaseEffect(db, remote);
    var b := StubPhase(db, remote);
    assert SamePokemon(db, b.db, x);
    if b.error.None? && background {
      var ids := SortedIds(b.db.pokemon.Keys);
      var deep := DeepSync(b.db, remote, ids, 0, hasCallback, |ids|);
      CompleteStays(db, b.db, x);
      DeepKeepsComplete(b.db, remote, ids, 0, hasCallback, |ids|, x);
      SamePokemonTrans(db, b.db, deep.db, x);
      PrefixTrans(db.regions, b.db.regions, deep.db.regions);
    }
    assert SamePokemon(db, d, x) && Prefix(db.regions, d.regions);
    CompleteStays(db, d.(syncInfo := SyncSpec(db, remote, background, hasCallback, now).db.syncInfo), x);
  }
}
