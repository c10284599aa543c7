/** The presentation rules of the detail view that depend on no widget:
    the colour band of a base stat, the generation tables, the generation a
    Pokémon first appears in and the generation selected by default, which
    abilities and attacking types a generation shows, and the short label
    of a variety. */
module DetailView {
  import opened Wrappers
  import opened Text
  import opened Collections

  // ---------------------------------------------------------------------
  // Stat colours

  /** The lower bounds of the bands "Poor" to "Phenomenal", ascending. */
  const StatThresholds: seq<int> := [30, 60, 90, 120, 150]

  /** The colour of each band, from "Very Poor" to "Phenomenal". */
  const BandColors: seq<string> := ["#F34444", "#FF7F0F", "#FFDD57", "#A0E515", "#23CD5E", "#00C2B8"]

  /** `_get_stat_color(value)`: an if/elif chain over the thresholds. */
  function StatColor(value: int): string {
    if value < 30 then "#F34444"
    else if value < 60 then "#FF7F0F"
    else if value < 90 then "#FFDD57"
    else if value < 120 then "#A0E515"
    else if value < 150 then "#23CD5E"
    else "#00C2B8"
  }

  /** How many of the thresholds `value` reaches. */
  function CountReached(ts: seq<int>, value: int): (n: nat)
    ensures n <= |ts|
  {
    if ts == [] then 0 else (if ts[0] <= value then 1 else 0) + CountReached(ts[1..], value)
  }

  /** The band of a stat: the number of thresholds it reaches. */
  function StatBand(value: int): (b: nat)
    ensures b < |BandColors|
  {
    CountReached(StatThresholds, value)
  }

  /** The colour of a stat is the colour of its band. */
  lemma StatColorIsBandColor(value: int)
    ensures StatColor(value) == BandColors[StatBand(value)]
  {
    var t := StatThresholds;
    var v := value;
    assert t[5..] == [] && CountReached(t[5..], v) == 0;
    assert t[4..] == [150] && t[4..][1..] == t[5..];
    assert CountReached(t[4..], v) == (if 150 <= v then 1 else 0);
    assert t[3..][0] == 120 && t[3..][1..] == t[4..];
    assert CountReached(t[3..], v) == (if 120 <= v then 1 else 0) + CountReached(t[4..], v);
    assert t[2..][0] == 90 && t[2..][1..] == t[3..];
    assert CountReached(t[2..], v) == (if 90 <= v then 1 else 0) + CountReached(t[3..], v);
    assert t[1..][0] == 60 && t[1..][1..] == t[2..];
    assert CountReached(t[1..], v) == (if 60 <= v then 1 else 0) + CountReached(t[2..], v);
    assert CountReached(t, v) == (if 30 <= v then 1 else 0) + CountReached(t[1..], v);
  }

  /** Reaching thresholds is monotone: a larger value reaches at least as many. */
  lemma {:induction false} CountReachedMonotone(ts: seq<int>, a: int, b: int)
    requires a <= b
    ensures CountReached(ts, a) <= CountReached(ts, b)
    decreases |ts|
  {
    if ts != [] {
      CountReachedMonotone(ts[1..], a, b);
    }
  }

  /** A higher stat never falls in a lower band. */
  lemma StatBandMonotone(a: int, b: int)
    requires a <= b
    ensures StatBand(a) <= StatBand(b)
  {
    CountReachedMonotone(StatThresholds, a, b);
  }

  // ---------------------------------------------------------------------
  // Generation tables

  /** `VERSION_GROUPS`: the generation of each version group. */
  const VersionGroups: map<string, string> := map[
    "red-blue" := "Gen 1", "yellow" := "Gen 1",
    "gold-silver" := "Gen 2", "crystal" := "Gen 2",
    "ruby-sapphire" := "Gen 3", "emerald" := "Gen 3", "firered-leafgreen" := "Gen 3",
    "diamond-pearl" := "Gen 4", "platinum" := "Gen 4", "heartgold-soulsilver" := "Gen 4",
    "black-white" := "Gen 5", "black-2-white-2" := "Gen 5",
    "x-y" := "Gen 6", "omega-ruby-alpha-sapphire" := "Gen 6",
    "sun-moon" := "Gen 7", "ultra-sun-ultra-moon" := "Gen 7", "lets-go-pikachu-lets-go-eevee" := "Gen 7",
    "sword-shield" := "Gen 8", "brilliant-diamond-shining-pearl" := "Gen 8", "legends-arceus" := "Gen 8",
    "scarlet-violet" := "Gen 9"]

  /** `ALL_GENERATIONS`: the choices of the generation box, in order. */
  const AllGenerations: seq<string> := ["Gen 1", "Gen 2", "Gen 3", "Gen 4", "Gen 5", "Gen 6", "Gen 7", "Gen 8", "Gen 9"]

  /** `GEN_MAX_ID`: the largest national id of each generation. */
  const GenMaxId: map<string, int> := map[
    "Gen 1" := 151, "Gen 2" := 251, "Gen 3" := 386, "Gen 4" := 493, "Gen 5" := 649,
    "Gen 6" := 721, "Gen 7" := 809, "Gen 8" := 905, "Gen 9" := 2000]

  /** The label of generation `n`: `f"Gen {n}"`. */
  function GenLabel(n: int): string {
    "Gen " + IntToString(n)
  }

  /** The characters of `s` before the first `c`: the first piece of
      `s.split(c)`. */
  function UpTo(s: string, c: char): (r: string)
    ensures |r| <= |s| && c !in r
    decreases |s|
  {
    if s == [] || s[0] == c then [] else [s[0]] + UpTo(s[1..], c)
  }

  /** `int(gen.split(" ")[1])` after `gen.startswith("Gen ")`, or None where
      Python raises ValueError (the piece is no integer). The piece is taken
      as the characters after "Gen " up to the next space, which is what
      the split gives (`GenNumberSplits`). */
  function GenNumber(gen: string): Option<int> {
    if |gen| >= 4 && gen[..4] == "Gen " then ParseInt(UpTo(gen[4..], ' ')) else None
  }

  /** The first piece of a split is the text before the first separator. */
  lemma {:induction false} SplitFirstPiece(s: string, c: char)
    ensures Split(s, c)[0] == UpTo(s, c)
    decreases |s|
  {
    if s != [] && s[0] != c {
      SplitFirstPiece(s[1..], c);
    }
  }

  /** A string without `c` is its own first piece. */
  lemma {:induction false} UpToAbsent(s: string, c: char)
    requires c !in s
    ensures UpTo(s, c) == s
    decreases |s|
  {
    if s != [] {
      UpToAbsent(s[1..], c);
    }
  }

  /** After "Gen " the split has a second piece, and it is the piece
      `GenNumber` reads. */
  lemma GenNumberSplits(gen: string)
    requires |gen| >= 4 && gen[..4] == "Gen "
    ensures |Split(gen, ' ')| >= 2
    ensures GenNumber(gen) == ParseInt(Split(gen, ' ')[1])
  {
    var t := gen[4..];
    assert gen == "Gen" + [' '] + t;
    SplitConcat("Gen", t, ' ');
    SplitNoSep("Gen", ' ');
    assert Split(gen, ' ') == ["Gen"] + Split(t, ' ');
    SplitFirstPiece(t, ' ');
  }

  /** Decimal digits hold no space. */
  lemma IntToStringNoSpace(n: int)
    ensures ' ' !in IntToString(n)
  {
    var s := if n < 0 then -n else n;
    var d := NatToString(s);
    forall k | 0 <= k < |d| ensures d[k] != ' ' {
      assert IsDigit(d[k]);
    }
    if n < 0 {
      assert IntToString(n) == "-" + d;
    }
  }

  /** Reading the number back from a generation label gives the number. */
  lemma GenNumberOfLabel(n: int)
    ensures GenNumber(GenLabel(n)) == Some(n)
  {
    var x := IntToString(n);
    var g := GenLabel(n);
    assert g[..4] == "Gen " && g[4..] == x;
    IntToStringNoSpace(n);
    UpToAbsent(x, ' ');
    ParseIntToString(n);
  }

  /** `ALL_GENERATIONS` lists the labels of generations 1 to 9. */
  lemma AllGenerationsAreLabels()
    ensures |AllGenerations| == 9
    ensures forall k :: 0 <= k < 9 ==> AllGenerations[k] == GenLabel(k + 1)
  {
    forall k | 0 <= k < 9 ensures AllGenerations[k] == GenLabel(k + 1) {
      assert IntToString(k + 1) == [DigitChar(k + 1)];
    }
  }

  /** The generation of each choice is its position plus one, so every
      choice yields a number from 1 to 9. */
  lemma GenNumberOfChoice(k: int)
    requires 0 <= k < |AllGenerations|
    ensures GenNumber(AllGenerations[k]) == Some(k + 1)
  {
    AllGenerationsAreLabels();
    GenNumberOfLabel(k + 1);
  }

  /** The generation a label names, when it is one of the choices. */
  lemma GenNumberInRange(g: string)
    requires g in AllGenerations
    ensures GenNumber(g).Some? && 1 <= GenNumber(g).value <= 9
    ensures AllGenerations[GenNumber(g).value - 1] == g
  {
    var k :| 0 <= k < |AllGenerations| && AllGenerations[k] == g;
    GenNumberOfChoice(k);
  }

  /** Every version group names one of the nine generations, and the
      generations of `GEN_MAX_ID` are exactly the choices. */
  lemma TablesAgree()
    ensures forall v :: v in VersionGroups ==> VersionGroups[v] in AllGenerations
    ensures forall g :: g in GenMaxId <==> g in AllGenerations
  {
  }

  /** `GEN_MAX_ID` grows with the generation. */
  lemma GenMaxIdIncreasing(i: int, j: int)
    requires 0 <= i < j < |AllGenerations|
    ensures GenMaxId[AllGenerations[i]] < GenMaxId[AllGenerations[j]]
  {
  }

  // ---------------------------------------------------------------------
  // The generation a Pokémon was introduced in

  /** A learnable move of the Pokémon, as the detail view reads it: the
      move's name and the `pokemon_moves` columns. */
  datatype MoveEntry = MoveEntry(name: string, learnMethod: string, level: int, versionGroup: string)

  /** The generation number one move contributes to the first-generation
      loop: its version group must be set, not "unknown", listed in
      `VERSION_GROUPS` with a "Gen n" label, and `n` must parse. */
  function MoveGeneration(m: MoveEntry): Option<int> {
    var v := m.versionGroup;
    if v == "" || v == "unknown" then None
    else
      var g := if v in VersionGroups then VersionGroups[v] else "";
      GenNumber(g)
  }

  /** The generation of a move is one of 1 to 9, and it is there exactly
      when the version group is in the table. */
  lemma MoveGenerationRange(m: MoveEntry)
    ensures MoveGeneration(m).Some? <==> m.versionGroup in VersionGroups
    ensures MoveGeneration(m).Some? ==> 1 <= MoveGeneration(m).value <= 9
  {
    var v := m.versionGroup;
    NoPlaceholderGroup();
    if v in VersionGroups {
      TablesAgree();
      GenNumberInRange(VersionGroups[v]);
    } else {
      assert |""| < 4;
    }
  }

  /** Neither placeholder the loop skips is a version group of the table. */
  lemma NoPlaceholderGroup()
    ensures "" !in VersionGroups && "unknown" !in VersionGroups
  {
  }

  /** The first-generation loop: the smallest generation among the moves,
      starting from 10 so that a Pokémon without a known version group
      counts as introduced after every choice. */
  method FirstGeneration(moves: seq<MoveEntry>) returns (first: int)
    ensures 1 <= first <= 10
    ensures forall k :: 0 <= k < |moves| && MoveGeneration(moves[k]).Some? ==> first <= MoveGeneration(moves[k]).value
    ensures first == 10 || exists k :: 0 <= k < |moves| && MoveGeneration(moves[k]) == Some(first)
  {
    forall m ensures MoveGeneration(m).Some? ==> 1 <= MoveGeneration(m).value <= 9 {
      MoveGenerationRange(m);
    }
    first := SmallestGeneration(moves, MoveGeneration);
  }

  /** The loop itself, with the generation of a move given as `gen`. */
  method SmallestGeneration(moves: seq<MoveEntry>, gen: MoveEntry -> Option<int>) returns (first: int)
    requires forall m :: gen(m).Some? ==> 1 <= gen(m).value <= 9
    ensures 1 <= first <= 10
    ensures forall k :: 0 <= k < |moves| && gen(moves[k]).Some? ==> first <= gen(moves[k]).value
    ensures first == 10 || exists k :: 0 <= k < |moves| && gen(moves[k]) == Some(first)
  {
    first := 10;
    ghost var from := 0;
    var i := 0;
    while i < |moves|
      invariant 0 <= i <= |moves|
      invariant 1 <= first <= 10
      invariant forall k :: 0 <= k < i && gen(moves[k]).Some? ==> first <= gen(moves[k]).value
      invariant first == 10 || (0 <= from < i && gen(moves[from]) == Some(first))
    {
      var n := gen(moves[i]);
      if n.Some? && n.value < first {
        first := n.value;
        from := i;
      }
      i := i + 1;
    }
  }

  // ---------------------------------------------------------------------
  // The selected generation

  /** The generation shown: a requested one that is a choice stays, any
      other request falls back to the first choice, and without a request
      the generation the Pokémon was introduced in is chosen, capped at
      "Gen 9", or "Gen 1" when that label is not a choice. */
  function SelectGeneration(requested: string, first: int): (g: string)
    ensures g in AllGenerations
    ensures requested != "" && requested in AllGenerations ==> g == requested
    ensures requested != "" && requested !in AllGenerations ==> g == "Gen 1"
  {
    if requested == "" then
      var choice := if first <= 9 then GenLabel(first) else "Gen 9";
      if choice in AllGenerations then choice else "Gen 1"
    else if requested in AllGenerations then requested
    else AllGenerations[0]
  }

  /** Without a request the Pokémon's own generation is selected: generation
      `first` when it is one of 1 to 9, and "Gen 9" for the default 10. */
  lemma DefaultSelection(first: int)
    requires 1 <= first <= 10
    ensures first <= 9 ==> SelectGeneration("", first) == GenLabel(first)
    ensures first == 10 ==> SelectGeneration("", first) == "Gen 9"
    ensures GenNumber(SelectGeneration("", first)) == Some(if first <= 9 then first else 9)
  {
    AllGenerationsAreLabels();
    if first <= 9 {
      assert AllGenerations[first - 1] == GenLabel(first);
      GenNumberOfLabel(first);
    } else {
      GenNumberInRange("Gen 9");
      assert AllGenerations[8] == "Gen 9";
    }
  }

  /** The number of the selected generation, `int(selected.split(" ")[1])`. */
  function SelectedNumber(requested: string, first: int): (n: int)
    ensures 1 <= n <= 9
    ensures AllGenerations[n - 1] == SelectGeneration(requested, first)
  {
    var g := SelectGeneration(requested, first);
    GenNumberInRange(g);
    GenNumber(g).value
  }

  // ---------------------------------------------------------------------
  // Abilities and attacking types shown for a generation

  /** An ability of the Pokémon with its `is_hidden` flag. */
  datatype AbilityEntry = AbilityEntry(name: string, isHidden: bool, description: string, shortDescription: string)

  /** The abilities listed for generation `gen`: none before generation 3,
      and no hidden ability before generation 5. */
  function AbilitiesShown(abilities: seq<AbilityEntry>, gen: int): (r: seq<AbilityEntry>)
    ensures gen < 3 ==> r == []
    ensures gen >= 3 ==> forall a :: a in r <==> a in abilities && (!a.isHidden || gen >= 5)
    ensures IsSubseq(r, abilities)
    decreases |abilities|
  {
    if gen < 3 then
      SubseqEmpty(abilities);
      []
    else if abilities == [] then []
    else
      var rest := AbilitiesShown(abilities[1..], gen);
      if abilities[0].isHidden && gen < 5 then
        assert forall a :: a in abilities <==> a == abilities[0] || a in abilities[1..];
        rest
      else
        assert forall a :: a in abilities <==> a == abilities[0] || a in abilities[1..];
        assert ([abilities[0]] + rest)[1..] == rest;
        [abilities[0]] + rest
  }

  lemma {:induction false} SubseqEmpty<T>(s: seq<T>)
    ensures IsSubseq([], s)
    decreases |s|
  {
    if s != [] {
      SubseqEmpty(s[1..]);
    }
  }

  /** The keys of `TYPE_COLORS`, in the order they are written. */
  const TypeNames: seq<string> := [
    "normal", "fire", "water", "electric", "grass", "ice", "fighting", "poison", "ground",
    "flying", "psychic", "bug", "rock", "ghost", "dragon", "dark", "steel", "fairy"]

  /** `[t for t in types if t not in excluded]` */
  function Without(types: seq<string>, excluded: set<string>): (r: seq<string>)
    ensures forall t :: t in r <==> t in types && t !in excluded
    ensures IsSubseq(r, types)
    decreases |types|
  {
    if types == [] then []
    else
      var rest := Without(types[1..], excluded);
      assert forall t :: t in types <==> t == types[0] || t in types[1..];
      if types[0] in excluded then rest
      else
        assert ([types[0]] + rest)[1..] == rest;
        [types[0]] + rest
  }

  /** The attacking types of the weakness table for generation `gen`: steel
      and dark appear from generation 2 on, fairy from generation 6 on. */
  function AvailableTypes(gen: int): (r: seq<string>)
    ensures forall t :: t in r <==> t in TypeNames && !(gen < 2 && t in {"steel", "dark"}) && !(gen < 6 && t == "fairy")
    ensures IsSubseq(r, TypeNames)
  {
    SubseqRefl(TypeNames);
    var a := if gen < 2 then Without(TypeNames, {"steel", "dark"}) else TypeNames;
    if gen < 6 then
      var b := Without(a, {"fairy"});
      SubseqTrans(b, a, TypeNames);
      b
    else a
  }

  lemma {:induction false} SubseqRefl<T>(s: seq<T>)
    ensures IsSubseq(s, s)
    decreases |s|
  {
    if s != [] {
      SubseqRefl(s[1..]);
    }
  }

  lemma {:induction false} SubseqTrans<T>(a: seq<T>, b: seq<T>, c: seq<T>)
    requires IsSubseq(a, b) && IsSubseq(b, c)
    ensures IsSubseq(a, c)
    decreases |c|
  {
    if c == [] {
    } else if IsSubseq(b, c[1..]) {
      SubseqTrans(a, b, c[1..]);
    } else {
      // b[0] == c[0] and IsSubseq(b[1..], c[1..])
      if a == [] {
        SubseqEmpty(c);
      } else if IsSubseq(a, b[1..]) {
        SubseqTrans(a, b[1..], c[1..]);
      } else {
        SubseqTrans(a[1..], b[1..], c[1..]);
      }
    }
  }

  /** The first fifteen types, none of them gated by generation. */
  const FirstFifteen: seq<string> := [
    "normal", "fire", "water", "electric", "grass", "ice", "fighting", "poison", "ground",
    "flying", "psychic", "bug", "rock", "ghost", "dragon"]

  /** None of the gated types is among the first fifteen. */
  lemma GatedTypesLate()
    ensures "dark" !in FirstFifteen && "steel" !in FirstFifteen && "fairy" !in FirstFifteen
  {
    forall k | 0 <= k < |FirstFifteen|
      ensures FirstFifteen[k] != "dark" && FirstFifteen[k] != "steel" && FirstFifteen[k] != "fairy"
    {
      var t := FirstFifteen[k];
      assert t[0] != 'd' || t != "dark";
    }
  }

  /** The attacking types: the first fifteen in generation 1, then dark and
      steel in generations 2 to 5, all 18 from generation 6 on. */
  lemma AvailableTypesCount(gen: int)
    ensures gen < 2 ==> AvailableTypes(gen) == FirstFifteen && |FirstFifteen| == 15
    ensures 2 <= gen < 6 ==> AvailableTypes(gen) == FirstFifteen + ["dark", "steel"]
    ensures gen >= 6 ==> AvailableTypes(gen) == TypeNames && |TypeNames| == 18
  {
    if gen < 2 {
      WithoutDarkSteel();
      WithoutFairyAfter();
    } else if gen < 6 {
      WithoutFairy();
    }
  }

  lemma WithoutDarkSteel()
    ensures Without(TypeNames, {"steel", "dark"}) == FirstFifteen + ["fairy"]
  {
    assert TypeNames == FirstFifteen + ["dark", "steel", "fairy"];
    GatedTypesLate();
    assert "fairy"[0] != "steel"[0] && "fairy"[0] != "dark"[0];
    WithoutGatedLast(FirstFifteen, "dark", "steel", "fairy", {"steel", "dark"});
  }

  /** Excluding the first two of three types appended to ones never excluded. */
  lemma WithoutGatedLast(first: seq<string>, a: string, b: string, c: string, excluded: set<string>)
    requires forall x :: x in excluded ==> x !in first
    requires a in excluded && b in excluded && c !in excluded
    ensures Without(first + [a, b, c], excluded) == first + [c]
  {
    WithoutKeeps(first, [a, b, c], excluded);
    WithoutFirstTwo(a, b, c, excluded);
  }

  /** Dropping the first two of three when only they are excluded. */
  lemma WithoutFirstTwo(a: string, b: string, c: string, excluded: set<string>)
    requires a in excluded && b in excluded && c !in excluded
    ensures Without([a, b, c], excluded) == [c]
  {
    WithoutHead([a, b, c], excluded);
    assert [a, b, c][1..] == [b, c];
    WithoutHead([b, c], excluded);
    assert [b, c][1..] == [c];
    WithoutHead([c], excluded);
  }

  /** One step of `Without`: the head is dropped when excluded, else kept. */
  lemma WithoutHead(types: seq<string>, excluded: set<string>)
    requires types != []
    ensures Without(types, excluded) ==
      if types[0] in excluded then Without(types[1..], excluded) else [types[0]] + Without(types[1..], excluded)
  {
  }

  lemma WithoutFairy()
    ensures Without(TypeNames, {"fairy"}) == FirstFifteen + ["dark", "steel"]
  {
    var late := ["dark", "steel", "fairy"];
    assert TypeNames == FirstFifteen + late;
    GatedTypesLate();
    WithoutKeeps(FirstFifteen, late, {"fairy"});
    assert late == ["dark", "steel"] + ["fairy"];
    WithoutKeeps(["dark", "steel"], ["fairy"], {"fairy"});
    assert Without(["fairy"], {"fairy"}) == [];
    assert ["dark", "steel"] + [] == ["dark", "steel"];
  }

  lemma WithoutFairyAfter()
    ensures Without(FirstFifteen + ["fairy"], {"fairy"}) == FirstFifteen
  {
    GatedTypesLate();
    WithoutKeeps(FirstFifteen, ["fairy"], {"fairy"});
    assert Without(["fairy"], {"fairy"}) == [];
    assert FirstFifteen + [] == FirstFifteen;
  }

  lemma {:induction false} WithoutKeeps(a: seq<string>, b: seq<string>, excluded: set<string>)
    requires forall x :: x in excluded ==> x !in a
    ensures Without(a + b, excluded) == a + Without(b, excluded)
    decreases |a|
  {
    if a == [] {
      assert a + b == b;
    } else {
      var w := Without(b, excluded);
      assert (a + b)[0] == a[0] && (a + b)[1..] == a[1..] + b;
      assert a[0] !in excluded;
      WithoutKeeps(a[1..], b, excluded);
      assert Without(a + b, excluded) == [a[0]] + (a[1..] + w);
      assert [a[0]] + (a[1..] + w) == ([a[0]] + a[1..]) + w;
      assert [a[0]] + a[1..] == a;
    }
  }

  // ---------------------------------------------------------------------
  // Varieties

  /** The short label of a variety button: the last '-'-separated piece of
      the name, capitalised, or the whole name capitalised without a '-'. */
  function VarietyLabel(name: string): (shown: string)
    ensures '-' !in name ==> shown == Capitalize(name)
  {
    if '-' in name then
      var parts := Split(name, '-');
      Capitalize(parts[|parts| - 1])
    else Capitalize(name)
  }

  /** With a '-' in the name, the label is a capitalised suffix of the name
      that holds no '-' and follows a '-': the text after the last '-'. */
  lemma VarietyLabelSuffix(name: string)
    requires '-' in name
    ensures exists k :: 0 < k <= |name| && name[k - 1] == '-' &&
                        VarietyLabel(name) == Capitalize(name[k..]) && '-' !in name[k..]
  {
    var k := LastPieceIsSuffix(name, '-');
    assert VarietyLabel(name) == Capitalize(name[k..]);
  }

  /** Capitalising keeps a string free of '-'. */
  lemma CapitalizeKeepsNoDash(s: string)
    requires '-' !in s
    ensures '-' !in Capitalize(s)
  {
    var r := Capitalize(s);
    forall i | 0 <= i < |r| ensures r[i] != '-' {
      if i > 0 {
        assert r[i] == Lower(s[1..])[i - 1] == LowerChar(s[i]);
      }
    }
  }

  /** A variety label holds no '-'. */
  lemma VarietyLabelNoDash(name: string)
    ensures '-' !in VarietyLabel(name)
  {
    if '-' in name {
      VarietyLabelSuffix(name);
      var k :| 0 < k <= |name| && name[k - 1] == '-' && VarietyLabel(name) == Capitalize(name[k..]) && '-' !in name[k..];
      CapitalizeKeepsNoDash(name[k..]);
    } else {
      CapitalizeKeepsNoDash(name);
    }
  }
}
