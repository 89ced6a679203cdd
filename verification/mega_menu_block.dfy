/**
 * The mega menu block (src/Plugin/Block/MegaMenuBlock.php): it walks the
 * top-level items of the target menu and, for each item whose link has a
 * layout, tags the item as a trigger and attaches a content panel holding
 * the link's blocks, region by region, in the layout's region order.
 *
 * Foreign services are parameters: the layout plugin definitions (`defs`),
 * the block collection's grouping by region (`group`, ctools'
 * `getAllByRegion`) and the block access check (`allowed`).
 */
module Render {
  import opened Wrappers
  import PhpArray
  import opened Entity
  import MenuScript

  /**
   * `str_replace('.', '_', $key)`: configuration keys may not contain dots,
   * so every dot of a menu link key becomes an underscore.
   */
  function SafeKey(k: string): (r: string)
    ensures |r| == |k|
    ensures forall i :: 0 <= i < |k| ==> r[i] == (if k[i] == '.' then '_' else k[i])
    ensures '.' !in r
  {
    if k == [] then [] else [if k[0] == '.' then '_' else k[0]] + SafeKey(k[1..])
  }

  /** A key that is already safe is left alone, so sanitising twice is sanitising once. */
  lemma {:induction false} SafeKeyKeepsSafe(k: string)
    requires '.' !in k
    ensures SafeKey(k) == k
  {
    if k != [] {
      SafeKeyKeepsSafe(k[1..]);
    }
  }

  lemma SafeKeyIdempotent(k: string)
    ensures SafeKey(SafeKey(k)) == SafeKey(k)
  {
    SafeKeyKeepsSafe(SafeKey(k));
  }

  /** A layout plugin definition: its regions (key => name, in order), theme and library. */
  datatype LayoutDefinition = LayoutDefinition(regionNames: PhpArray.Arr<string>, theme: string, library: Option<string>)

  /** Blocks grouped by region: region => (block id => configuration). */
  type Grouped = PhpArray.Arr<PhpArray.Arr<Config>>

  /**
   * `array_intersect_key(array_merge($empty, $full), $empty)` with `$empty`
   * the layout's region keys each mapped to `[]`: the layout's regions, in
   * the layout's order, each with its stored blocks or none; stored regions
   * the layout does not have are dropped.
   */
  function RegionAssignment(regionNames: PhpArray.Arr<string>, full: Grouped): (r: Grouped)
    ensures r.keys == regionNames.keys
    ensures forall k :: k in r.vals ==> r.vals[k] == (if k in full.vals then full.vals[k] else PhpArray.Empty())
  {
    PhpArray.OrderedByKeys(regionNames.keys, full, PhpArray.Empty());
    var empty := PhpArray.FillKeys(regionNames.keys, PhpArray.Empty<Config>());
    PhpArray.IntersectKey(PhpArray.Merge(empty, full), empty)
  }

  /** `$configuration['weight']`; a missing entry reads as null. */
  function Weight(c: Config): Value {
    if "weight" in c then c["weight"] else Null
  }

  /** The render array of one block, reduced to what the model tracks. */
  datatype BlockBuild = BlockBuild(id: string, weight: Value, configuration: Config)

  function BlockBuildOf(id: string, c: Config): BlockBuild {
    BlockBuild(id, Weight(c), c)
  }

  /**
   * The blocks of one region that the access check lets through, in order,
   * each under its own id with its configured weight.
   */
  function AllowedBlocks(ids: seq<string>, blocks: Configs, allowed: Config -> bool): seq<BlockBuild>
    requires forall id :: id in ids ==> id in blocks
  {
    if ids == [] then []
    else
      var id := ids[|ids| - 1];
      var rest := AllowedBlocks(ids[..|ids| - 1], blocks, allowed);
      if allowed(blocks[id]) then rest + [BlockBuildOf(id, blocks[id])] else rest
  }

  /**
   * A region renders exactly the blocks the access check lets through, each
   * built from its own configuration, and never more blocks than it holds.
   */
  lemma {:induction false} AllowedBlocksExactly(ids: seq<string>, blocks: Configs, allowed: Config -> bool)
    requires forall id :: id in ids ==> id in blocks
    ensures var r := AllowedBlocks(ids, blocks, allowed);
      && |r| <= |ids|
      && (forall b :: b in r ==> b.id in ids && allowed(blocks[b.id]) && b == BlockBuildOf(b.id, blocks[b.id]))
      && (forall id :: id in ids && allowed(blocks[id]) ==> BlockBuildOf(id, blocks[id]) in r)
  {
    if ids != [] {
      var init := ids[..|ids| - 1];
      assert forall x :: x in ids ==> x in init || x == ids[|ids| - 1];
      AllowedBlocksExactly(init, blocks, allowed);
    }
  }

  /** `$build['#items'][$key]['content'][$region]`: one region and its blocks. */
  datatype RegionBuild = RegionBuild(region: string, blocks: seq<BlockBuild>)

  /** A content panel: `data-mega-menu-content`, the layout's theme and library, and the regions. */
  datatype ItemContent = ItemContent(wrapperId: string, theme: string, library: Option<string>, regions: seq<RegionBuild>)

  /**
   * One menu item after the mega menu pass: `data-mega-menu-content-target`
   * on the trigger, and the content panel, both absent for a link without
   * layout.
   */
  datatype RenderedItem = RenderedItem(key: string, contentTarget: Option<string>, content: Option<ItemContent>)

  /** Blocks of one region, filtered by the access check, as the inner loop builds them. */
  method BuildRegionBlocks(blocks: PhpArray.Arr<Config>, allowed: Config -> bool) returns (out: seq<BlockBuild>)
    ensures out == AllowedBlocks(blocks.keys, blocks.vals, allowed)
  {
    out := [];
    var i := 0;
    while i < |blocks.keys|
      invariant 0 <= i <= |blocks.keys|
      invariant out == AllowedBlocks(blocks.keys[..i], blocks.vals, allowed)
    {
      var id := blocks.keys[i];
      assert blocks.keys[..i + 1][..i] == blocks.keys[..i];
      if allowed(blocks.vals[id]) {
        out := out + [BlockBuildOf(id, blocks.vals[id])];
      }
      i := i + 1;
    }
    assert blocks.keys[..i] == blocks.keys;
  }

  /** Every region of the assignment, in order, with its allowed blocks. */
  function RegionBuilds(assignment: Grouped, allowed: Config -> bool): (r: seq<RegionBuild>)
    ensures |r| == |assignment.keys|
    ensures forall i :: 0 <= i < |r| ==> r[i].region == assignment.keys[i]
  {
    seq(|assignment.keys|, i requires 0 <= i < |assignment.keys| =>
      var blocks := assignment.vals[assignment.keys[i]];
      RegionBuild(assignment.keys[i], AllowedBlocks(blocks.keys, blocks.vals, allowed)))
  }

  /** The region loop of `buildMegaMenuTree`. */
  method BuildRegions(assignment: Grouped, allowed: Config -> bool) returns (out: seq<RegionBuild>)
    ensures out == RegionBuilds(assignment, allowed)
  {
    out := [];
    var i := 0;
    while i < |assignment.keys|
      invariant 0 <= i <= |assignment.keys|
      invariant out == RegionBuilds(assignment, allowed)[..i]
    {
      var region := assignment.keys[i];
      var blocks := BuildRegionBlocks(assignment.vals[region], allowed);
      out := out + [RegionBuild(region, blocks)];
      i := i + 1;
    }
  }

  /**
   * What the loop of `buildMegaMenuTree` makes of the item `key`, given the
   * layout and blocks stored under its sanitised key. None where the layout
   * plugin is unknown, in which case `createInstance` throws.
   */
  function RenderItem(key: string, layout: string, blocks: Configs, defs: map<string, LayoutDefinition>,
                      group: Configs -> Grouped, allowed: Config -> bool): (r: Option<RenderedItem>)
    ensures r.None? <==> layout != NO_LAYOUT && layout !in defs
    ensures r.Some? ==> r.value.key == key
    // Links without a layout get neither a target nor content.
    ensures r.Some? && layout == NO_LAYOUT ==> r.value.contentTarget.None? && r.value.content.None?
    // Every other item pairs its trigger and its panel through the raw key.
    ensures r.Some? && layout != NO_LAYOUT ==>
      && r.value.contentTarget == Some(key)
      && r.value.content.Some?
      && r.value.content.value.wrapperId == key
      && r.value.content.value.theme == defs[layout].theme
      && r.value.content.value.library == defs[layout].library
      && |r.value.content.value.regions| == |defs[layout].regionNames.keys|
      && (forall i :: 0 <= i < |defs[layout].regionNames.keys| ==>
            r.value.content.value.regions[i].region == defs[layout].regionNames.keys[i])
  {
    if layout == NO_LAYOUT then Some(RenderedItem(key, None, None))
    else if layout !in defs then None
    else
      var def := defs[layout];
      var assignment := RegionAssignment(def.regionNames, group(blocks));
      var regions := RegionBuilds(assignment, allowed);
      Some(RenderedItem(key, Some(key), Some(ItemContent(key, def.theme, def.library, regions))))
  }

  /**
   * What a rendered region holds: the blocks `getAllByRegion` grouped under
   * it that the access check lets through, each built from its own
   * configuration, and nothing when no block is grouped under it.
   */
  lemma RenderedRegionBlocks(key: string, layout: string, blocks: Configs, defs: map<string, LayoutDefinition>,
                             group: Configs -> Grouped, allowed: Config -> bool, i: nat)
    requires layout != NO_LAYOUT && layout in defs
    requires i < |defs[layout].regionNames.keys|
    ensures var region := defs[layout].regionNames.keys[i];
            var g := group(blocks);
            var shown := RenderItem(key, layout, blocks, defs, group, allowed).value.content.value.regions[i].blocks;
            && (region !in g.vals ==> shown == [])
            && (region in g.vals ==>
                  && (forall b :: b in shown ==>
                        b.id in g.vals[region].vals && allowed(g.vals[region].vals[b.id])
                        && b == BlockBuildOf(b.id, g.vals[region].vals[b.id]))
                  && (forall id :: id in g.vals[region].vals && allowed(g.vals[region].vals[id]) ==>
                        BlockBuildOf(id, g.vals[region].vals[id]) in shown))
  {
    var region := defs[layout].regionNames.keys[i];
    var g := group(blocks);
    var held := RegionAssignment(defs[layout].regionNames, g).vals[region];
    AllowedBlocksExactly(held.keys, held.vals, allowed);
  }

  /** One pass of the item loop of `buildMegaMenuTree`. */
  method BuildItem(m: MegaMenu, key: string, defs: map<string, LayoutDefinition>,
                   group: Configs -> Grouped, allowed: Config -> bool)
    returns (r: Option<RenderedItem>)
    requires m.Valid()
    modifies m`collections
    ensures m.Valid()
    ensures forall k :: m.Blocks(k) == old(m.Blocks(k))
    ensures r == RenderItem(key, LinkLayout(m.links, SafeKey(key)), old(m.Blocks(SafeKey(key))), defs, group, allowed)
  {
    var safe := SafeKey(key);
    var layout := m.GetLinkLayout(safe);
    if layout == NO_LAYOUT {
      return Some(RenderedItem(key, None, None));
    }
    if layout !in defs {
      return None;
    }
    var def := defs[layout];
    var c := m.GetBlocksByLink(safe);
    var assignment := RegionAssignment(def.regionNames, group(c.configs));
    var regions := BuildRegions(assignment, allowed);
    r := Some(RenderedItem(key, Some(key), Some(ItemContent(key, def.theme, def.library, regions))));
  }

  /**
   * `buildMegaMenuTree`: every item of the menu, in order, as `RenderItem`
   * makes it from the configuration stored under the item's sanitised key.
   * None when some item's layout plugin is unknown.
   */
  method BuildMegaMenuTree(m: MegaMenu, items: seq<string>, defs: map<string, LayoutDefinition>,
                           group: Configs -> Grouped, allowed: Config -> bool)
    returns (r: Option<seq<RenderedItem>>)
    requires m.Valid()
    modifies m`collections
    ensures m.Valid()
    ensures forall k :: m.Blocks(k) == old(m.Blocks(k))
    ensures r.Some? <==> forall i :: 0 <= i < |items| ==>
      RenderItem(items[i], LinkLayout(m.links, SafeKey(items[i])), old(m.Blocks(SafeKey(items[i]))), defs, group, allowed).Some?
    ensures r.Some? ==> |r.value| == |items| && forall i :: 0 <= i < |items| ==>
      Some(r.value[i]) == RenderItem(items[i], LinkLayout(m.links, SafeKey(items[i])), old(m.Blocks(SafeKey(items[i]))), defs, group, allowed)
  {
    var out: seq<RenderedItem> := [];
    var i := 0;
    while i < |items|
      invariant 0 <= i <= |items|
      invariant m.Valid()
      invariant forall k :: m.Blocks(k) == old(m.Blocks(k))
      invariant |out| == i
      invariant forall j :: 0 <= j < i ==>
        Some(out[j]) == RenderItem(items[j], LinkLayout(m.links, SafeKey(items[j])), old(m.Blocks(SafeKey(items[j]))), defs, group, allowed)
    {
      ghost var expected := RenderItem(items[i], LinkLayout(m.links, SafeKey(items[i])), m.Blocks(SafeKey(items[i])), defs, group, allowed);
      var item := BuildItem(m, items[i], defs, group, allowed);
      assert item == expected;
      if item.None? {
        return None;
      }
      out := out + [item.value];
      i := i + 1;
    }
    r := Some(out);
  }

  /** The render array `build()` returns: the root's `data-mega-menu` attribute and the items. */
  datatype MenuBuild = MenuBuild(dataMegaMenu: string, items: seq<RenderedItem>, library: string)

  /** `build`: the tree, with the root tagged by the mega menu's id and the script library attached. */
  method Build(m: MegaMenu, items: seq<string>, defs: map<string, LayoutDefinition>,
               group: Configs -> Grouped, allowed: Config -> bool)
    returns (r: Option<MenuBuild>)
    requires m.Valid()
    modifies m`collections
    ensures m.Valid()
    ensures forall k :: m.Blocks(k) == old(m.Blocks(k))
    ensures r.Some? <==> forall i :: 0 <= i < |items| ==>
      RenderItem(items[i], LinkLayout(m.links, SafeKey(items[i])), old(m.Blocks(SafeKey(items[i]))), defs, group, allowed).Some?
    ensures r.Some? ==> r.value.dataMegaMenu == m.name && r.value.library == "mega_menu/menu"
    ensures r.Some? ==> |r.value.items| == |items| && forall i :: 0 <= i < |items| ==>
      Some(r.value.items[i]) ==
        RenderItem(items[i], LinkLayout(m.links, SafeKey(items[i])), old(m.Blocks(SafeKey(items[i]))), defs, group, allowed)
  {
    var tree := BuildMegaMenuTree(m, items, defs, group, allowed);
    if tree.None? {
      return None;
    }
    r := Some(MenuBuild(m.name, tree.value, "mega_menu/menu"));
  }

  /** The ids of the content panels the page ends up with. */
  function PanelIds(tree: seq<RenderedItem>): set<string> {
    set i | 0 <= i < |tree| && tree[i].content.Some? :: tree[i].content.value.wrapperId
  }

  /**
   * The markup contract the script relies on: every trigger the tree tags
   * names a panel of the same tree, so in the freshly bound script a click
   * on it opens that panel (and does not follow the link).
   */
  lemma TriggersFindTheirPanels(key: string, layout: string, blocks: Configs, defs: map<string, LayoutDefinition>,
                                group: Configs -> Grouped, allowed: Config -> bool,
                                tree: seq<RenderedItem>, i: nat, c: bool)
    requires i < |tree|
    requires Some(tree[i]) == RenderItem(key, layout, blocks, defs, group, allowed)
    requires tree[i].contentTarget.Some? && key != ""
    ensures tree[i].contentTarget.value in PanelIds(tree)
    ensures var o := MenuScript.AfterToggle(MenuScript.Init(PanelIds(tree)), key, c);
            o.defaultPrevented && o.panels[key] == MenuScript.Opened
  {
    assert tree[i].content.value.wrapperId == key;
  }

  /** A render array, keyed by property name. */
  type RenderArray = map<string, Value>

  /** `$build['#cache']`, or null when the array has none. */
  function CacheOf(a: RenderArray): Value {
    if "#cache" in a then a["#cache"] else Null
  }

  /**
   * `preRenderBlock`: `content` is what the block plugin's `build()`
   * returned (None for null) and `contentIsEmpty` what `Element::isEmpty`
   * says of it. Null or empty content becomes empty markup carrying the
   * block's cache settings; when that content is still a non-empty array
   * (cacheability metadata only), its metadata is merged in by
   * `mergeCache`, which stands for `CacheableMetadata::merge` and
   * `applyTo`. Other content is attached under `content`. Either way the
   * plugin reference is dropped.
   */
  function PreRenderBlock(build: RenderArray, content: Option<RenderArray>, contentIsEmpty: bool,
                          mergeCache: (Value, Value) -> Value): (r: RenderArray)
    ensures "#block_plugin" !in r
    ensures content.None? || contentIsEmpty ==>
      r.Keys == {"#markup", "#cache"} && r["#markup"] == Str("")
    ensures content.None? || (contentIsEmpty && content.value == map[]) ==> r["#cache"] == CacheOf(build)
    ensures content.Some? && contentIsEmpty && content.value != map[] ==>
      r["#cache"] == mergeCache(CacheOf(build), CacheOf(content.value))
    ensures content.Some? && !contentIsEmpty ==>
      && r.Keys == build.Keys - {"#block_plugin"} + {"content"}
      && r["content"] == Nested(content.value)
      && (forall k :: k in build && k != "#block_plugin" && k != "content" ==> r[k] == build[k])
  {
    var rest := build - {"#block_plugin"};
    if content.None? || contentIsEmpty then
      var cache := CacheOf(build);
      map["#markup" := Str(""),
          "#cache" := if content.Some? && content.value != map[] then mergeCache(cache, CacheOf(content.value)) else cache]
    else
      rest["content" := Nested(content.value)]
  }
}
