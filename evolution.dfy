/** The evolution tab of the detail view: the text shown under each stage
    of an evolution chain, chosen from the chain's evolution details by the
    selected generation, and the chain pruned to the species that exist in
    that generation. */
module Evolution {
  import opened Wrappers
  import opened Text
  import opened Api
  import opened Collections
  import opened Database
  import opened DetailView

  // ---------------------------------------------------------------------
  // Evolution details

  /** One entry of `evolution_details`, with the keys the view reads. A dict
      field (`held_item`, `item`, `known_move`, `known_move_type`, `location`)
      is the name inside it, or None when the key is absent; `trigger` is the
      trigger's name, "" when there is none. */
  datatype EvoDetail = EvoDetail(
    trigger: string,
    minLevel: Option<int>,
    minHappiness: Option<int>,
    minAffection: Option<int>,
    heldItem: Option<string>,
    item: Option<string>,
    knownMove: Option<string>,
    knownMoveType: Option<string>,
    location: Option<string>,
    timeOfDay: string)

  /** Python truthiness of an optional integer: present and not zero. */
  predicate Truthy(o: Option<int>) {
    o.Some? && o.value != 0
  }

  /** The generation gates of the selection loop: happiness, and a held item
      outside a trade, need generation 2; a known move, a known move type
      or a location need generation 4; affection needs generation 6. */
  predicate Admissible(d: EvoDetail, gen: int) {
    !(gen < 2 && (Truthy(d.minHappiness) || (d.heldItem.Some? && d.trigger != "trade"))) &&
    !(gen < 4 && (d.knownMove.Some? || d.knownMoveType.Some? || d.location.Some?)) &&
    !(gen < 6 && Truthy(d.minAffection))
  }

  /** The position of the first detail that passes the gates, if any. */
  function FirstAdmissible(details: seq<EvoDetail>, gen: int): (r: Option<nat>)
    ensures r.Some? ==> r.value < |details| && Admissible(details[r.value], gen)
    ensures r.Some? ==> forall k :: 0 <= k < r.value ==> !Admissible(details[k], gen)
    ensures r.None? ==> forall k :: 0 <= k < |details| ==> !Admissible(details[k], gen)
    decreases |details|
  {
    if details == [] then None
    else if Admissible(details[0], gen) then Some(0)
    else
      var rest := FirstAdmissible(details[1..], gen);
      assert forall k :: 1 <= k < |details| ==> details[k] == details[1..][k - 1];
      if rest.Some? then Some(rest.value + 1) else None
  }

  /** `best_detail`: the first detail passing the gates, or the first detail
      when none does. */
  function BestDetail(details: seq<EvoDetail>, gen: int): (d: EvoDetail)
    requires details != []
    ensures (d == details[0] && forall k :: 0 <= k < |details| ==> !Admissible(details[k], gen)) ||
      (exists k :: 0 <= k < |details| && details[k] == d && Admissible(d, gen) &&
         forall j :: 0 <= j < k ==> !Admissible(details[j], gen))
  {
    var f := FirstAdmissible(details, gen);
    if f.Some? then details[f.value] else details[0]
  }

  /** A name of the API shown to the user: '-' turned into spaces, then
      capitalised. */
  function Spaced(name: string): string {
    Capitalize(ReplaceAll(name, "-", " "))
  }

  /** One line of the text under a stage. */
  datatype Part =
    | Level(level: int)
    | Happiness(happiness: int)
    | KnownMove(move: string)
    | Place(location: string)
    | Holding(heldItem: string)
    | TimeOfDay(time: string)
    | Item(item: string)
    | Trade
    | TradeHolding(heldItem: string)
    | TriggerName(trigger: string)

  /** How each line is written. */
  function PartText(p: Part): string {
    match p
    case Level(n) => "Lvl " + IntToString(n)
    case Happiness(n) => "Happiness " + IntToString(n)
    case KnownMove(m) => "Move: " + Spaced(m)
    case Place(l) => "at " + Spaced(l)
    case Holding(h) => "Holding " + Spaced(h)
    case TimeOfDay(t) => "(" + Capitalize(t) + ")"
    case Item(i) => Spaced(i)
    case Trade => "Trade"
    case TradeHolding(h) => "holding " + Spaced(h)
    case TriggerName(t) => Spaced(t)
  }

  function Texts(parts: seq<Part>): (r: seq<string>)
    ensures |r| == |parts|
    ensures forall k :: 0 <= k < |parts| ==> r[k] == PartText(parts[k])
  {
    seq(|parts|, k requires 0 <= k < |parts| => PartText(parts[k]))
  }

  lemma TextsSnoc(a: seq<Part>, p: Part)
    ensures Texts(a + [p]) == Texts(a) + [PartText(p)]
  {
  }

  lemma TextsLineIf(a: seq<Part>, c: bool, p: Part)
    ensures Texts(a + LineIf(c, p)) == Texts(a) + (if c then [PartText(p)] else [])
  {
    if c {
      TextsSnoc(a, p);
    } else {
      assert a + LineIf(c, p) == a;
    }
  }

  /** `[p]` when `c` holds, else nothing: one optional line. */
  function LineIf(c: bool, p: Part): seq<Part> {
    if c then [p] else []
  }

  /** The lines for a level-up detail. */
  function LevelUpParts(d: EvoDetail, gen: int): (parts: seq<Part>)
    ensures forall p :: p in parts ==> (gen < 2 ==> !p.Happiness?)
    ensures forall p :: p in parts ==> (gen < 4 ==> !p.KnownMove? && !p.Place?)
  {
    LineIf(Truthy(d.minLevel), Level(d.minLevel.GetOr(0))) +
    LineIf(gen >= 2 && Truthy(d.minHappiness), Happiness(d.minHappiness.GetOr(0))) +
    LineIf(gen >= 4 && d.knownMove.Some?, KnownMove(d.knownMove.GetOr(""))) +
    LineIf(gen >= 4 && d.location.Some?, Place(d.location.GetOr(""))) +
    LineIf(d.heldItem.Some?, Holding(d.heldItem.GetOr(""))) +
    LineIf(d.timeOfDay != "", TimeOfDay(d.timeOfDay))
  }

  /** The lines for the chosen detail: by trigger, and the trigger's own
      name when no line was produced. Happiness is never shown before
      generation 2, nor a known move or a location before generation 4;
      there are lines exactly when there is a trigger; a trade starts with
      "Trade"; any other trigger is shown by its name alone. */
  function DetailParts(d: EvoDetail, gen: int): (parts: seq<Part>)
    ensures forall p :: p in parts ==> (gen < 2 ==> !p.Happiness?)
    ensures forall p :: p in parts ==> (gen < 4 ==> !p.KnownMove? && !p.Place?)
    ensures parts == [] <==> d.trigger == ""
    ensures d.trigger == "trade" ==> parts[0] == Trade
    ensures d.trigger != "" && d.trigger != "level-up" && d.trigger != "use-item" && d.trigger != "trade" ==>
      parts == [TriggerName(d.trigger)]
  {
    var produced :=
      if d.trigger == "level-up" then LevelUpParts(d, gen)
      else if d.trigger == "use-item" then (if d.item.Some? then [Item(d.item.value)] else [])
      else if d.trigger == "trade" then [Trade] + (if d.heldItem.Some? then [TradeHolding(d.heldItem.value)] else [])
      else [];
    if produced == [] && d.trigger != "" then [TriggerName(d.trigger)] else produced
  }

  /** `parse_evolution_details(details, gen)`: "" without details, else the
      lines of the chosen detail joined by newlines. */
  function EvolutionText(details: seq<EvoDetail>, gen: int): string {
    if details == [] then ""
    else Join(Texts(DetailParts(BestDetail(details, gen), gen)), "\n")
  }

  /** A trigger without lines of its own is shown as its name with '-'
      turned into spaces and capitalised. */
  lemma FallbackText(details: seq<EvoDetail>, gen: int)
    requires details != []
    requires var t := BestDetail(details, gen).trigger;
      t != "" && t != "level-up" && t != "use-item" && t != "trade"
    ensures EvolutionText(details, gen) == Spaced(BestDetail(details, gen).trigger)
  {
    var d := BestDetail(details, gen);
    assert DetailParts(d, gen) == [TriggerName(d.trigger)];
    assert Texts([TriggerName(d.trigger)]) == [Spaced(d.trigger)];
  }

  /** Every detail passes the gates from generation 6 on, so the first
      detail is the one shown. */
  lemma LateGenerationsTakeFirst(details: seq<EvoDetail>, gen: int)
    requires details != [] && gen >= 6
    ensures BestDetail(details, gen) == details[0]
  {
    assert Admissible(details[0], gen);
  }

  /** The nested `parse_evolution_details`: the selection loop stops at the
      first detail passing the gates, and the lines are appended one by one. */
  method ParseEvolutionDetails(details: seq<EvoDetail>, gen: int) returns (text: string)
    ensures details == [] ==> text == ""
    ensures text == EvolutionText(details, gen)
  {
    if details == [] {
      return "";
    }
    var best: Option<EvoDetail> := None;
    var i := 0;
    while i < |details|
      invariant 0 <= i <= |details|
      invariant forall k :: 0 <= k < i ==> !Admissible(details[k], gen)
    {
      var d := details[i];
      if gen < 2 && (Truthy(d.minHappiness) || (d.heldItem.Some? && d.trigger != "trade")) {
      } else if gen < 4 && (d.knownMove.Some? || d.knownMoveType.Some? || d.location.Some?) {
      } else if gen < 6 && Truthy(d.minAffection) {
      } else {
        best := Some(d);
        break;
      }
      i := i + 1;
    }
    var d := if best.Some? then best.value else details[0];
    assert d == BestDetail(details, gen);
    text := DetailText(d, gen);
  }

  /** The lines of one detail, appended as the view appends them, then joined. */
  method DetailText(d: EvoDetail, gen: int) returns (text: string)
    ensures text == Join(Texts(DetailParts(d, gen)), "\n")
  {
    var trigger := d.trigger;
    var parts: seq<string> := [];
    ghost var lines: seq<Part> := [];
    if trigger == "level-up" {
      parts := LevelUpText(d, gen);
      lines := LevelUpParts(d, gen);
    } else if trigger == "use-item" {
      if d.item.Some? {
        parts, lines := parts + [PartText(Item(d.item.value))], lines + [Item(d.item.value)];
      }
    } else if trigger == "trade" {
      parts, lines := parts + [PartText(Trade)], lines + [Trade];
      if d.heldItem.Some? {
        TextsSnoc(lines, TradeHolding(d.heldItem.value));
        parts, lines := parts + [PartText(TradeHolding(d.heldItem.value))], lines + [TradeHolding(d.heldItem.value)];
      }
    }
    assert parts == Texts(lines);
    if parts == [] && trigger != "" {
      parts, lines := parts + [PartText(TriggerName(trigger))], lines + [TriggerName(trigger)];
    }
    assert lines == DetailParts(d, gen);
    text := Join(parts, "\n");
  }

  /** The lines of a level-up detail, appended one by one. */
  method LevelUpText(d: EvoDetail, gen: int) returns (parts: seq<string>)
    ensures parts == Texts(LevelUpParts(d, gen))
  {
    parts := [];
    if Truthy(d.minLevel) {
      parts := parts + [PartText(Level(d.minLevel.value))];
    }
    ghost var lines := LineIf(Truthy(d.minLevel), Level(d.minLevel.GetOr(0)));
    assert parts == Texts(lines);
    if gen >= 2 && Truthy(d.minHappiness) {
      parts := parts + [PartText(Happiness(d.minHappiness.value))];
    }
    TextsLineIf(lines, gen >= 2 && Truthy(d.minHappiness), Happiness(d.minHappiness.GetOr(0)));
    lines := lines + LineIf(gen >= 2 && Truthy(d.minHappiness), Happiness(d.minHappiness.GetOr(0)));
    assert parts == Texts(lines);
    if gen >= 4 && d.knownMove.Some? {
      parts := parts + [PartText(KnownMove(d.knownMove.value))];
    }
    TextsLineIf(lines, gen >= 4 && d.knownMove.Some?, KnownMove(d.knownMove.GetOr("")));
    lines := lines + LineIf(gen >= 4 && d.knownMove.Some?, KnownMove(d.knownMove.GetOr("")));
    assert parts == Texts(lines);
    if gen >= 4 && d.location.Some? {
      parts := parts + [PartText(Place(d.location.value))];
    }
    TextsLineIf(lines, gen >= 4 && d.location.Some?, Place(d.location.GetOr("")));
    lines := lines + LineIf(gen >= 4 && d.location.Some?, Place(d.location.GetOr("")));
    assert parts == Texts(lines);
    if d.heldItem.Some? {
      parts := parts + [PartText(Holding(d.heldItem.value))];
    }
    TextsLineIf(lines, d.heldItem.Some?, Holding(d.heldItem.GetOr("")));
    lines := lines + LineIf(d.heldItem.Some?, Holding(d.heldItem.GetOr("")));
    assert parts == Texts(lines);
    if d.timeOfDay != "" {
      parts := parts + [PartText(TimeOfDay(d.timeOfDay))];
    }
    TextsLineIf(lines, d.timeOfDay != "", TimeOfDay(d.timeOfDay));
    lines := lines + LineIf(d.timeOfDay != "", TimeOfDay(d.timeOfDay));
    assert parts == Texts(lines);
  }

  // ---------------------------------------------------------------------
  // The evolution tree

  /** A link of the chain: `species`, `evolution_details` (absent is []) and
      `evolves_to`. */
  datatype ChainLink = ChainLink(speciesName: string, speciesUrl: string, details: seq<EvoDetail>, evolvesTo: seq<ChainLink>)

  /** A node of `evo_tree`, with the species id its sprite URL is made from. */
  datatype EvoNode = EvoNode(name: string, speciesId: int, spriteUrl: string, details: string, evolvesTo: seq<EvoNode>)

  /** What the view raises: a species URL without an integer id, or a
      selection without a generation number. */
  datatype EvoError = BadSpeciesUrl(url: string) | BadGeneration(selection: string)

  /** `build_evo_tree(chain, gen)`: None for a species past `maxId`, whose
      whole subtree is then dropped; otherwise the node and the trees of its
      evolutions that are kept, in order. */
  function BuildEvoTree(chain: ChainLink, gen: int, maxId: int): Result<Option<EvoNode>, EvoError>
    decreases chain, 1
  {
    var id := UrlId(chain.speciesUrl);
    if id.None? then Failure(BadSpeciesUrl(chain.speciesUrl))
    else if id.value > maxId then Success(None)
    else
      var kids := BuildChildren(chain.evolvesTo, gen, maxId);
      if kids.Failure? then Failure(kids.error)
      else Success(Some(EvoNode(chain.speciesName, id.value, SpriteUrl(id.value), EvolutionText(chain.details, gen), kids.value)))
  }

  /** The loop over `chain["evolves_to"]`, keeping the children that are not None. */
  function BuildChildren(links: seq<ChainLink>, gen: int, maxId: int): Result<seq<EvoNode>, EvoError>
    decreases links, 0
  {
    if links == [] then Success([])
    else
      var first := BuildEvoTree(links[0], gen, maxId);
      if first.Failure? then Failure(first.error)
      else
        var rest := BuildChildren(links[1..], gen, maxId);
        if rest.Failure? then Failure(rest.error)
        else Success((if first.value.Some? then [first.value.value] else []) + rest.value)
  }

  /** Every node of a tree has a species id of at most `maxId`. */
  predicate WithinLimit(n: EvoNode, maxId: int)
    decreases n
  {
    n.speciesId <= maxId && forall k :: 0 <= k < |n.evolvesTo| ==> WithinLimit(n.evolvesTo[k], maxId)
  }

  /** A link that survives pruning: its id can be read and is within the limit. */
  predicate Survives(l: ChainLink, maxId: int) {
    UrlId(l.speciesUrl).Some? && UrlId(l.speciesUrl).value <= maxId
  }

  /** A node shows its link: the species' name, the id read from its URL,
      the sprite made from that id and the text of the link's details. */
  predicate NodeOf(n: EvoNode, l: ChainLink, gen: int) {
    n.name == l.speciesName && UrlId(l.speciesUrl) == Some(n.speciesId) &&
    n.spriteUrl == SpriteUrl(n.speciesId) && n.details == EvolutionText(l.details, gen)
  }

  /** A node shows its link with the link's whole pruned subtree: the node
      shows the link, lies within the limit, and its children show, in
      order, exactly the evolutions of the link that survive pruning. */
  predicate Shows(n: EvoNode, l: ChainLink, gen: int, maxId: int)
    decreases l, 1
  {
    NodeOf(n, l, gen) && n.speciesId <= maxId && ShowsKept(n.evolvesTo, l.evolvesTo, gen, maxId)
  }

  /** `kids` show, in order, the links of `links` that survive pruning;
      a link that does not survive is dropped with its whole subtree. */
  predicate ShowsKept(kids: seq<EvoNode>, links: seq<ChainLink>, gen: int, maxId: int)
    decreases links, 0
  {
    if links == [] then kids == []
    else if Survives(links[0], maxId) then
      kids != [] && Shows(kids[0], links[0], gen, maxId) && ShowsKept(kids[1..], links[1..], gen, maxId)
    else ShowsKept(kids, links[1..], gen, maxId)
  }

  /** A link's pruned tree is shown by exactly one node. */
  lemma {:induction false} ShowsUnique(n1: EvoNode, n2: EvoNode, l: ChainLink, gen: int, maxId: int)
    requires Shows(n1, l, gen, maxId) && Shows(n2, l, gen, maxId)
    ensures n1 == n2
    decreases l, 1
  {
    KeptUnique(n1.evolvesTo, n2.evolvesTo, l.evolvesTo, gen, maxId);
  }

  lemma {:induction false} KeptUnique(a: seq<EvoNode>, b: seq<EvoNode>, links: seq<ChainLink>, gen: int, maxId: int)
    requires ShowsKept(a, links, gen, maxId) && ShowsKept(b, links, gen, maxId)
    ensures a == b
    decreases links, 0
  {
    if links != [] {
      if Survives(links[0], maxId) {
        ShowsUnique(a[0], b[0], links[0], gen, maxId);
        KeptUnique(a[1..], b[1..], links[1..], gen, maxId);
        assert a == [a[0]] + a[1..] && b == [b[0]] + b[1..];
      } else {
        KeptUnique(a, b, links[1..], gen, maxId);
      }
    }
  }

  /** A built tree lies within the limit and shows the chain: its root
      shows the chain's first link and, at every depth, the children of a
      node are exactly the evolutions that survive pruning, in order. */
  lemma {:induction false} BuildEvoTreeSound(chain: ChainLink, gen: int, maxId: int)
    ensures BuildEvoTree(chain, gen, maxId).Success? && BuildEvoTree(chain, gen, maxId).value.Some? ==>
      var n := BuildEvoTree(chain, gen, maxId).value.value;
      WithinLimit(n, maxId) && Shows(n, chain, gen, maxId)
    decreases chain, 1
  {
    BuildChildrenSound(chain.evolvesTo, gen, maxId);
  }

  lemma {:induction false} BuildChildrenSound(links: seq<ChainLink>, gen: int, maxId: int)
    ensures BuildChildren(links, gen, maxId).Success? ==>
      var kids := BuildChildren(links, gen, maxId).value;
      ShowsKept(kids, links, gen, maxId) && forall k :: 0 <= k < |kids| ==> WithinLimit(kids[k], maxId)
    decreases links, 0
  {
    if links != [] {
      BuildEvoTreeSound(links[0], gen, maxId);
      BuildChildrenSound(links[1..], gen, maxId);
      var first := BuildEvoTree(links[0], gen, maxId);
      var rest := BuildChildren(links[1..], gen, maxId);
      if first.Success? && rest.Success? {
        var kids := BuildChildren(links, gen, maxId).value;
        assert first.value.Some? <==> Survives(links[0], maxId);
        if first.value.Some? {
          assert kids == [first.value.value] + rest.value;
          assert kids[1..] == rest.value;
        } else {
          assert kids == rest.value;
        }
      }
    }
  }

  /** A first species past the limit gives no tree at all. */
  lemma RootOverLimit(chain: ChainLink, gen: int, maxId: int)
    requires UrlId(chain.speciesUrl).Some? && UrlId(chain.speciesUrl).value > maxId
    ensures BuildEvoTree(chain, gen, maxId) == Success(None)
  {
  }

  /** A species URL without an id is an error, unless pruning stopped
      before reaching it; at the root it always is. */
  lemma BadRootUrl(chain: ChainLink, gen: int, maxId: int)
    requires UrlId(chain.speciesUrl).None?
    ensures BuildEvoTree(chain, gen, maxId) == Failure(BadSpeciesUrl(chain.speciesUrl))
  {
  }

  /** `GEN_MAX_ID.get(selected_generation, 2000)` */
  function MaxIdOf(selection: string): int {
    if selection in GenMaxId then GenMaxId[selection] else 2000
  }

  /** `int(selected_generation.split(" ")[1])`, or None where Python raises. */
  function SelectionNumber(selection: string): Option<int> {
    var pieces := Split(selection, ' ');
    if |pieces| < 2 then None else ParseInt(pieces[1])
  }

  /** `_load_evolutions` once the chain is fetched: the limit and the
      generation number come from the selection, then the tree is built. */
  function LoadEvolutions(chain: ChainLink, selection: string): Result<Option<EvoNode>, EvoError> {
    var maxId := MaxIdOf(selection);
    var gen := SelectionNumber(selection);
    if gen.None? then Failure(BadGeneration(selection))
    else BuildEvoTree(chain, gen.value, maxId)
  }

  /** For every choice of the generation box the number is the generation's
      and the limit the table's, so only pruning and the species URLs can
      make the view fail or drop stages. */
  lemma LoadEvolutionsOfChoice(chain: ChainLink, selection: string)
    requires selection in AllGenerations
    ensures SelectionNumber(selection) == GenNumber(selection)
    ensures selection in GenMaxId && MaxIdOf(selection) == GenMaxId[selection]
    ensures GenNumber(selection).Some? &&
      LoadEvolutions(chain, selection) == BuildEvoTree(chain, GenNumber(selection).value, GenMaxId[selection])
  {
    GenNumberInRange(selection);
    var k :| 0 <= k < |AllGenerations| && AllGenerations[k] == selection;
    assert selection[..4] == "Gen ";
    GenNumberSplits(selection);
    TablesAgree();
  }
}
