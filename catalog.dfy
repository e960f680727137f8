/** The item catalog and its rendering into indented lines (`format_catalog`).
    The catalog maps a category to its rarity tiers, and a tier to a list of
    items; an item is a plain name or a set with its parts. Python dictionaries
    keep insertion order, so each level is a sequence of (key, value) pairs. */
module Catalog {
  import opened Text

  datatype Item = Plain(name: string) | SetItem(name: string, parts: seq<string>)
  datatype Tier = Tier(rarity: string, items: seq<Item>)
  datatype Category = Category(key: string, tiers: seq<Tier>)

  /** The catalog the bot ships with (`skins`). */
  const Skins: seq<Category> := [
    Category("ст", [
      Tier("Ss+", [Plain("summer Riu chan")]),
      Tier("S+", []),
      Tier("A+", [])]),
    Category("вп", [
      Tier("S+", []),
      Tier("A+", []),
      Tier("B+", []),
      Tier("C+", []),
      Tier("D+", [])]),
    Category("сет", [
      Tier("S+", [
        SetItem("77 rings set", ["Top", "Mid", "Low"]),
        SetItem("Puchi heaven set", ["Mid", "Low"]),
        SetItem("Bruno set", ["Mid", "Low"]),
        SetItem("Fugo set", ["Mid", "Low"])])]),
    Category("itm", [
      Tier("SS+", [Plain("Green baby")]),
      Tier("S+", [Plain("Skull"), Plain("Heart"), Plain("Left arm of the saint corpse"), Plain("Pure arrow")]),
      Tier("A+", [Plain("eye of the saint corpse"), Plain("Rib cage of the saint corpse"),
                  Plain("Right arm of the saint corpse"), Plain("Tommy gun"), Plain("Double shot gun")]),
      Tier("B+", [Plain("Axe"), Plain("Electric hilibard"), Plain("Poisonous scimitar"),
                  Plain("Right leg of the saint corpse"), Plain("Left leg of the saint corpse"), Plain("Dio bone")]),
      Tier("C+", [Plain("Pluck"), Plain("Revolver"), Plain("Pistol"), Plain("Requiem arrow"),
                  Plain("Dio diary"), Plain("Locacaca")]),
      Tier("D+", [Plain("Arrow"), Plain("Stone mask"), Plain("Steel ball")])]),
    Category("крф", [
      Tier("S+", [Plain("Bruno zipper"), Plain("Fugo tie"), Plain("Blackmore mask"), Plain("Blackmore umbrella"),
                  Plain("Johnny horseshoe"), Plain("Gyro taddybear")]),
      Tier("A+", [Plain("Boss tie"), Plain("Pure meteor shard"), Plain("Passion badge"), Plain("Ladybug brush"),
                  Plain("Killer tie")]),
      Tier("C+", [Plain("Gold ingot"), Plain("Fabric"), Plain("Vampire blood"), Plain("Leather"),
                  Plain("Meteor shards")]),
      Tier("D+", [Plain("Steel ingot"), Plain("Wood"), Plain("Stone")])])
  ]

  // ---------------------------------------------------------------------------
  // The lines, level by level. Each sequence is consumed from its end so that
  // the rendering of a prefix is a prefix of the rendering.

  function CategoryHeader(key: string, upper: string -> string): string {
    "*Категория: " + upper(key) + "*"
  }

  function RarityHeader(rarity: string): string {
    "  _Редкость: " + rarity + "_"
  }

  function ItemLines(it: Item): seq<string> {
    match it
    case Plain(name) => ["    " + name]
    case SetItem(name, parts) => ["    " + name, "     " + Join(parts, ", ")]
  }

  function ItemsLines(items: seq<Item>): seq<string> {
    if items == [] then []
    else ItemsLines(items[..|items| - 1]) + ItemLines(items[|items| - 1])
  }

  function TierLines(t: Tier): seq<string> {
    [RarityHeader(t.rarity)] + ItemsLines(t.items)
  }

  function TiersLines(ts: seq<Tier>): seq<string> {
    if ts == [] then []
    else TiersLines(ts[..|ts| - 1]) + TierLines(ts[|ts| - 1])
  }

  function CategoryLines(c: Category, upper: string -> string): seq<string> {
    [CategoryHeader(c.key, upper)] + TiersLines(c.tiers)
  }

  function CatalogLines(cs: seq<Category>, upper: string -> string): seq<string> {
    if cs == [] then []
    else CatalogLines(cs[..|cs| - 1], upper) + CategoryLines(cs[|cs| - 1], upper)
  }

  /** `format_catalog`: the nested loops of the source, appending to a list of
      lines that is finally joined with newlines. `upper` is `str.upper`. The
      loop over the tiers of one category is `AppendTierLines`, and the loop
      over the items of one tier `AppendItemLines`. */
  method FormatCatalog(skins: seq<Category>, upper: string -> string) returns (text: string)
    ensures text == Join(CatalogLines(skins, upper), "\n")
  {
    var result: seq<string> := [];
    for c := 0 to |skins|
      invariant result == CatalogLines(skins[..c], upper)
    {
      assert skins[..c + 1][..c] == skins[..c];
      result := result + [CategoryHeader(skins[c].key, upper)];
      result := AppendTierLines(result, skins[c].tiers);
    }
    assert skins[..|skins|] == skins;
    text := Join(result, "\n");
  }

  /** The loop over the rarity tiers of one category: each adds its rarity
      line, then the lines of its items. */
  method AppendTierLines(lines: seq<string>, tiers: seq<Tier>) returns (result: seq<string>)
    ensures result == lines + TiersLines(tiers)
  {
    result := lines;
    for t := 0 to |tiers|
      invariant result == lines + TiersLines(tiers[..t])
    {
      assert tiers[..t + 1][..t] == tiers[..t];
      result := result + [RarityHeader(tiers[t].rarity)];
      result := AppendItemLines(result, tiers[t].items);
    }
    assert tiers[..|tiers|] == tiers;
  }

  /** The loop over the items of one tier: a plain name adds one line, a set
      adds its name and then its parts joined by ", ". */
  method AppendItemLines(lines: seq<string>, items: seq<Item>) returns (result: seq<string>)
    ensures result == lines + ItemsLines(items)
  {
    result := lines;
    for k := 0 to |items|
      invariant result == lines + ItemsLines(items[..k])
    {
      assert items[..k + 1][..k] == items[..k];
      match items[k]
      case Plain(name) =>
        result := result + ["    " + name];
      case SetItem(name, parts) =>
        result := result + ["    " + name];
        result := result + ["     " + Join(parts, ", ")];
    }
    assert items[..|items|] == items;
  }

  // ---------------------------------------------------------------------------
  // Counting what the rendering emits

  /** The tiers of all categories, in order. */
  function AllTiers(cs: seq<Category>): seq<Tier> {
    if cs == [] then [] else AllTiers(cs[..|cs| - 1]) + cs[|cs| - 1].tiers
  }

  /** The items of all tiers, in order. */
  function TierItems(ts: seq<Tier>): seq<Item> {
    if ts == [] then [] else TierItems(ts[..|ts| - 1]) + ts[|ts| - 1].items
  }

  function PlainCount(items: seq<Item>): nat {
    if items == [] then 0
    else PlainCount(items[..|items| - 1]) + (if items[|items| - 1].Plain? then 1 else 0)
  }

  function SetCount(items: seq<Item>): nat {
    if items == [] then 0
    else SetCount(items[..|items| - 1]) + (if items[|items| - 1].SetItem? then 1 else 0)
  }

  lemma {:induction false} CountsAppend(a: seq<Item>, b: seq<Item>)
    ensures PlainCount(a + b) == PlainCount(a) + PlainCount(b)
    ensures SetCount(a + b) == SetCount(a) + SetCount(b)
  {
    if b != [] {
      assert (a + b)[..|a + b| - 1] == a + b[..|b| - 1];
      CountsAppend(a, b[..|b| - 1]);
    } else {
      assert a + b == a;
    }
  }

  lemma {:induction false} TierItemsAppend(a: seq<Tier>, b: seq<Tier>)
    ensures TierItems(a + b) == TierItems(a) + TierItems(b)
  {
    if b != [] {
      assert (a + b)[..|a + b| - 1] == a + b[..|b| - 1];
      TierItemsAppend(a, b[..|b| - 1]);
    } else {
      assert a + b == a;
    }
  }

  /** A plain name gives one line and a set two: its name and its parts. */
  lemma {:induction false} ItemsLineCount(items: seq<Item>)
    ensures |ItemsLines(items)| == PlainCount(items) + 2 * SetCount(items)
  {
    if items != [] {
      ItemsLineCount(items[..|items| - 1]);
    }
  }

  /** Every tier gives its rarity line, even when it holds no item. */
  lemma {:induction false} TiersLineCount(ts: seq<Tier>)
    ensures |TiersLines(ts)| == |ts| + PlainCount(TierItems(ts)) + 2 * SetCount(TierItems(ts))
  {
    if ts != [] {
      var init, last := ts[..|ts| - 1], ts[|ts| - 1];
      TiersLineCount(init);
      ItemsLineCount(last.items);
      CountsAppend(TierItems(init), last.items);
    }
  }

  /** The rendering has one line per category, one per rarity tier, one per
      plain item and two per set. */
  lemma {:induction false} CatalogLineCount(cs: seq<Category>, upper: string -> string)
    ensures |CatalogLines(cs, upper)|
         == |cs| + |AllTiers(cs)| + PlainCount(TierItems(AllTiers(cs))) + 2 * SetCount(TierItems(AllTiers(cs)))
  {
    if cs != [] {
      var init, last := cs[..|cs| - 1], cs[|cs| - 1];
      CatalogLineCount(init, upper);
      TiersLineCount(last.tiers);
      TierItemsAppend(AllTiers(init), last.tiers);
      CountsAppend(TierItems(AllTiers(init)), TierItems(last.tiers));
    }
  }

  /** A tier with no items still shows its rarity line, and nothing else. */
  lemma EmptyTierLines(rarity: string)
    ensures TierLines(Tier(rarity, [])) == ["  _Редкость: " + rarity + "_"]
  {
  }

  // ---------------------------------------------------------------------------
  // Reading the rendering back

  /** No name in the catalog, and no upper-cased key, holds a line break. */
  ghost predicate SingleLine(cs: seq<Category>, upper: string -> string) {
    && (forall i :: 0 <= i < |cs| ==> '\n' !in upper(cs[i].key))
    && (forall t :: t in AllTiers(cs) ==> '\n' !in t.rarity)
    && (forall it :: it in TierItems(AllTiers(cs)) ==> ItemSingleLine(it))
  }

  predicate ItemSingleLine(it: Item) {
    && '\n' !in it.name
    && (it.SetItem? ==> forall j :: 0 <= j < |it.parts| ==> '\n' !in it.parts[j])
  }

  lemma {:induction false} JoinKeepsOut(parts: seq<string>, sep: string, c: char)
    requires c !in sep
    requires forall j :: 0 <= j < |parts| ==> c !in parts[j]
    ensures c !in Join(parts, sep)
  {
    if |parts| > 1 {
      JoinKeepsOut(parts[1..], sep, c);
    }
  }

  lemma {:induction false} ItemsSingle(items: seq<Item>)
    requires forall it :: it in items ==> ItemSingleLine(it)
    ensures SingleLines(ItemsLines(items))
  {
    if items != [] {
      var init, last := items[..|items| - 1], items[|items| - 1];
      assert forall it :: it in init ==> it in items;
      ItemsSingle(init);
      assert last in items;
      if last.SetItem? {
        JoinKeepsOut(last.parts, ", ", '\n');
      }
    }
  }

  lemma {:induction false} TiersSingle(ts: seq<Tier>)
    requires forall t :: t in ts ==> '\n' !in t.rarity
    requires forall it :: it in TierItems(ts) ==> ItemSingleLine(it)
    ensures SingleLines(TiersLines(ts))
  {
    if ts != [] {
      var init, last := ts[..|ts| - 1], ts[|ts| - 1];
      assert TierItems(ts) == TierItems(init) + last.items;
      TiersSingle(init);
      ItemsSingle(last.items);
    }
  }

  lemma {:induction false} CatalogSingle(cs: seq<Category>, upper: string -> string)
    requires SingleLine(cs, upper)
    ensures SingleLines(CatalogLines(cs, upper))
  {
    if cs != [] {
      var init, last := cs[..|cs| - 1], cs[|cs| - 1];
      TierItemsAppend(AllTiers(init), last.tiers);
      assert AllTiers(cs) == AllTiers(init) + last.tiers;
      assert SingleLine(init, upper);
      CatalogSingle(init, upper);
      TiersSingle(last.tiers);
    }
  }

  /** Splitting the rendered catalog at its line breaks gives back exactly the
      lines the rendering emitted, when no name holds a line break. */
  lemma RenderedLines(cs: seq<Category>, upper: string -> string)
    requires cs != []
    requires SingleLine(cs, upper)
    ensures Split(Join(CatalogLines(cs, upper), "\n"), '\n') == CatalogLines(cs, upper)
  {
    CatalogSingle(cs, upper);
    assert |CatalogLines(cs, upper)| >= 1;
    SplitJoin(CatalogLines(cs, upper), '\n');
  }

  /** The first category of the shipped catalog: its two empty tiers still
      show their rarity lines. */
  lemma FirstCategoryLines(upper: string -> string)
    ensures CategoryLines(Skins[0], upper)
         == [CategoryHeader("ст", upper), RarityHeader("Ss+"), "    summer Riu chan",
             RarityHeader("S+"), RarityHeader("A+")]
  {
    var ts := Skins[0].tiers;
    assert ts == [Tier("Ss+", [Plain("summer Riu chan")]), Tier("S+", []), Tier("A+", [])];
    var ss: seq<Item> := [Plain("summer Riu chan")];
    assert ss[..0] == [];
    assert "    " + "summer Riu chan" == "    summer Riu chan";
    assert ItemsLines(ss) == ItemsLines(ss[..0]) + ItemLines(ss[0]);
    assert ts[..3] == ts && ts[..3][..2] == ts[..2] && ts[..2][..1] == ts[..1] && ts[..1][..0] == [];
    assert TiersLines(ts[..1]) == TiersLines(ts[..1][..0]) + TierLines(ts[0]);
    assert TiersLines(ts[..2]) == TiersLines(ts[..2][..1]) + TierLines(ts[1]);
    assert TiersLines(ts[..3]) == TiersLines(ts[..3][..2]) + TierLines(ts[2]);
  }
}
