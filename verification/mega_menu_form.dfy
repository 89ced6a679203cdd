/**
 * The mega menu edit form (src/Form/MegaMenuFormBase.php and
 * src/Form/MegaMenuEditForm.php): the layout select's options, the regions a
 * layout offers, the general fields' locks, the per-link blocks table the
 * form builds, and `buildEntity`, which applies a submission.
 *
 * The layout plugin manager is a map from layout id to definition, the
 * ctools `getAllByRegion` grouping is the function `group`, and the menu's
 * link elements are given by their ids.
 */
module MenuForms {
  import opened Wrappers
  import PhpArray
  import opened Entity
  import Render
  import BlockForms

  /* ---------------------------------------------------------------------- */
  /* MegaMenuFormBase                                                       */
  /* ---------------------------------------------------------------------- */

  /**
   * `getLayoutOptions`: the "No layout" entry first, then the plugin manager's
   * options in their order; on a clash the "No layout" entry wins.
   */
  function LayoutOptions(pluginOptions: PhpArray.Arr<string>): (r: PhpArray.Arr<string>)
    ensures r.keys == [NO_LAYOUT] + PhpArray.Filter(pluginOptions.keys, {NO_LAYOUT}, false)
    ensures r.vals.Keys == pluginOptions.vals.Keys + {NO_LAYOUT}
    ensures r.vals[NO_LAYOUT] == "No layout"
    ensures forall k :: k in pluginOptions.vals && k != NO_LAYOUT ==> r.vals[k] == pluginOptions.vals[k]
  {
    var first := NoLayoutOption();
    assert first.vals.Keys == {NO_LAYOUT};
    PhpArray.Union(first, pluginOptions)
  }

  /** `[NO_LAYOUT => 'No layout']`. */
  function NoLayoutOption(): (r: PhpArray.Arr<string>)
    ensures r.keys == [NO_LAYOUT] && r.vals == map[NO_LAYOUT := "No layout"]
  {
    PhpArray.Put(PhpArray.Empty(), NO_LAYOUT, "No layout")
  }

  /** When no plugin offers the `NO_LAYOUT` id, every plugin option follows it in order. */
  lemma LayoutOptionsKeepPluginOrder(pluginOptions: PhpArray.Arr<string>)
    requires NO_LAYOUT !in pluginOptions.vals
    ensures LayoutOptions(pluginOptions).keys == [NO_LAYOUT] + pluginOptions.keys
  {
    PhpArray.FilterKeepsAll(pluginOptions.keys, {NO_LAYOUT}, false);
  }

  /**
   * `getLayoutRegions`: the region names of the layout's definition, in
   * order; nothing when the plugin is unknown (`getDefinition` throws) or the
   * definition lists no regions.
   */
  function LayoutRegions(layout: string, defs: map<string, Render.LayoutDefinition>): (r: PhpArray.Arr<string>)
    ensures layout !in defs ==> r.keys == [] && r.vals == map[]
    ensures layout in defs ==> r == defs[layout].regionNames
  {
    if layout !in defs || |defs[layout].regionNames.keys| == 0 then
      assert layout in defs ==> defs[layout].regionNames.vals == map[];
      PhpArray.Empty()
    else defs[layout].regionNames
  }

  /** A menu entity, reduced to its label. */
  datatype MenuEntity = MenuEntity(labelText: string)

  /** `getMenusListOptions`: every menu's label under its id, in storage order. */
  method MenusListOptions(menus: PhpArray.Arr<MenuEntity>) returns (list: PhpArray.Arr<string>)
    ensures list.keys == menus.keys
    ensures forall k :: k in menus.vals ==> k in list.vals && list.vals[k] == menus.vals[k].labelText
  {
    list := PhpArray.Empty();
    var i := 0;
    while i < |menus.keys|
      invariant 0 <= i <= |menus.keys|
      invariant list.keys == menus.keys[..i]
      invariant forall k :: k in list.vals <==> k in menus.keys[..i]
      invariant forall k :: k in list.vals ==> list.vals[k] == menus.vals[k].labelText
    {
      var id := menus.keys[i];
      assert id !in menus.keys[..i];
      list := PhpArray.Put(list, id, menus.vals[id].labelText);
      assert menus.keys[..i + 1] == menus.keys[..i] + [id];
      i := i + 1;
    }
    assert menus.keys[..i] == menus.keys;
  }

  /** PHP's truthiness of a string that may be null: null, "" and "0" are false. */
  predicate Truthy(s: Option<string>) {
    s.Some? && s.value != "" && s.value != "0"
  }

  /** A machine name or menu id is set: present and not empty. */
  predicate IsSet(s: Option<string>) {
    s.Some? && s.value != ""
  }

  /** Whether the general fields `name` and `menu` are read-only. */
  datatype GeneralLocks = GeneralLocks(machineNameDisabled: bool, menuDisabled: bool)

  /**
   * The `#disabled` flags as written: `$this->entity->id() ? TRUE : FALSE`
   * and the same test on the target menu. They only ever lock a set value,
   * but they test PHP truthiness, which is false for the string "0".
   */
  function GeneralLocksAsWritten(id: Option<string>, menu: Option<string>): (r: GeneralLocks)
    ensures r.machineNameDisabled ==> IsSet(id)
    ensures r.menuDisabled ==> IsSet(menu)
  {
    GeneralLocks(Truthy(id), Truthy(menu))
  }

  /** An existing mega menu whose machine name is "0" keeps an editable machine name. */
  lemma ZeroMachineNameStaysEditable()
    ensures IsSet(Some("0"))
    ensures !GeneralLocksAsWritten(Some("0"), Some("main")).machineNameDisabled
  {
  }

  /** The flags as intended: a field is locked exactly when its value is already set. */
  function Locks(id: Option<string>, menu: Option<string>): (r: GeneralLocks)
    ensures r.machineNameDisabled <==> IsSet(id)
    ensures r.menuDisabled <==> IsSet(menu)
  {
    GeneralLocks(IsSet(id), IsSet(menu))
  }

  /** The two agree on every value except "0". */
  lemma LocksAgreeExceptZero(id: Option<string>, menu: Option<string>)
    requires id != Some("0") && menu != Some("0")
    ensures Locks(id, menu) == GeneralLocksAsWritten(id, menu)
  {
  }

  /* ---------------------------------------------------------------------- */
  /* MegaMenuEditForm::form                                                 */
  /* ---------------------------------------------------------------------- */

  /** A `#tabledrag` entry; the relationship is always `sibling`. */
  datatype TableDrag = TableDrag(action: string, group: string, subgroup: string)

  /** The two entries every region adds: one for the region select, one for the weight. */
  function RegionDrags(regionKey: string): seq<TableDrag> {
    [TableDrag("match", "block-region-select", "block-region-" + regionKey),
     TableDrag("order", "block-weight", "block-weight-" + regionKey)]
  }

  /** The tabledrag entries for `regionKeys`, two per region, in order. */
  function Drags(regionKeys: seq<string>): seq<TableDrag>
  {
    if regionKeys == [] then []
    else Drags(regionKeys[..|regionKeys| - 1]) + RegionDrags(regionKeys[|regionKeys| - 1])
  }

  /** Region `i` owns entries `2i` (its region select) and `2i + 1` (its weight). */
  lemma {:induction false} DragsShape(regionKeys: seq<string>)
    ensures var r := Drags(regionKeys);
      && |r| == 2 * |regionKeys|
      && forall i :: 0 <= i < |regionKeys| ==>
           r[2 * i] == TableDrag("match", "block-region-select", "block-region-" + regionKeys[i]) &&
           r[2 * i + 1] == TableDrag("order", "block-weight", "block-weight-" + regionKeys[i])
  {
    if regionKeys != [] {
      var init := regionKeys[..|regionKeys| - 1];
      DragsShape(init);
      assert forall i :: 0 <= i < |init| ==> init[i] == regionKeys[i];
    }
  }

  /** A route with its parameters and query, as `Url::fromRoute` builds it. */
  datatype Route = Route(name: string, megaMenu: string, blockId: Option<string>, query: map<string, string>)

  /** A row of a link's blocks table. */
  datatype Row =
    | RegionTitle(regionName: string, placeBlock: Option<Route>)
    | RegionMessage(region: string, status: string)
    | BlockRow(region: string, weight: Value, edit: Route, delete: Route)

  /** A region's title row: the "Place block" link, except in the `NO_REGION` region. */
  function TitleRow(megaMenuId: string, linkId: string, regionKey: string, regionName: string): Row {
    if regionKey == NO_REGION then RegionTitle(regionName, None)
    else RegionTitle(regionName, Some(Route("mega_menu.block_library", megaMenuId, None,
                                            map["link" := linkId, "region" := regionKey])))
  }

  /** `empty($blocks_by_region[$region_key])`: the region is absent or has no block. */
  function MessageStatus(byRegion: Render.Grouped, regionKey: string): (r: string)
    ensures r == "region-empty" || r == "region-populated"
    ensures r == "region-empty" <==> regionKey !in byRegion.vals || byRegion.vals[regionKey].keys == []
  {
    if regionKey !in byRegion.vals || |byRegion.vals[regionKey].keys| == 0 then "region-empty"
    else "region-populated"
  }

  /** The weight field's default: the configured weight when it is set, 0 otherwise. */
  function DefaultWeight(c: Config): Value {
    if "weight" in c && c["weight"] != Null then c["weight"] else Int(0)
  }

  /** A block's row: region select, weight, and edit and delete operations. */
  function BlockRowOf(megaMenuId: string, linkId: string, regionKey: string, blockId: string, c: Config): Row {
    BlockRow(regionKey, DefaultWeight(c),
             Route("mega_menu.block_edit", megaMenuId, Some(blockId), map["link" := linkId, "region" := regionKey]),
             Route("mega_menu.block_delete", megaMenuId, Some(blockId), map["link" := linkId]))
  }

  /** The table after writing the rows of the blocks `ids` of one region, in order. */
  function PutBlockRows(rows: PhpArray.Arr<Row>, ids: seq<string>, blocks: Configs,
                        megaMenuId: string, linkId: string, regionKey: string): PhpArray.Arr<Row>
    requires forall id :: id in ids ==> id in blocks
  {
    if ids == [] then rows
    else
      var init := ids[..|ids| - 1];
      var id := ids[|ids| - 1];
      PhpArray.Put(PutBlockRows(rows, init, blocks, megaMenuId, linkId, regionKey), id,
                   BlockRowOf(megaMenuId, linkId, regionKey, id, blocks[id]))
  }

  /**
   * The block rows hold a row for every id, built from that block's
   * configuration, and keep every other row.
   */
  lemma {:induction false} PutBlockRowsEffect(rows: PhpArray.Arr<Row>, ids: seq<string>, blocks: Configs,
                                              megaMenuId: string, linkId: string, regionKey: string)
    requires forall id :: id in ids ==> id in blocks
    ensures var r := PutBlockRows(rows, ids, blocks, megaMenuId, linkId, regionKey);
      && (forall k :: k in r.vals <==> k in rows.vals || k in ids)
      && (forall id :: id in ids ==> r.vals[id] == BlockRowOf(megaMenuId, linkId, regionKey, id, blocks[id]))
      && (forall k :: k in rows.vals && k !in ids ==> r.vals[k] == rows.vals[k])
  {
    if ids != [] {
      var init := ids[..|ids| - 1];
      assert forall x :: x in ids <==> x in init || x == ids[|ids| - 1];
      PutBlockRowsEffect(rows, init, blocks, megaMenuId, linkId, regionKey);
    }
  }

  /**
   * One pass of the region loop: the title row under the region key, the
   * message row under `<key>-message`, then the region's blocks under their
   * ids. Later rows overwrite earlier ones under the same key.
   */
  function RegionRows(rows: PhpArray.Arr<Row>, regionKey: string, regionName: string, byRegion: Render.Grouped,
                      megaMenuId: string, linkId: string): (r: PhpArray.Arr<Row>)
    ensures forall k :: k in r.vals <==>
      k in rows.vals || k == regionKey || k == regionKey + "-message" || k in RegionBlockIds(byRegion, regionKey)
    ensures regionKey !in RegionBlockIds(byRegion, regionKey) ==>
      r.vals[regionKey] == TitleRow(megaMenuId, linkId, regionKey, regionName)
    ensures regionKey + "-message" !in RegionBlockIds(byRegion, regionKey) ==>
      r.vals[regionKey + "-message"] == RegionMessage(regionKey, MessageStatus(byRegion, regionKey))
    ensures forall id :: id in RegionBlockIds(byRegion, regionKey) ==>
      r.vals[id] == BlockRowOf(megaMenuId, linkId, regionKey, id, byRegion.vals[regionKey].vals[id])
  {
    var messageKey := regionKey + "-message";
    assert |messageKey| == |regionKey| + 8;
    var titled := PhpArray.Put(rows, regionKey, TitleRow(megaMenuId, linkId, regionKey, regionName));
    var messaged := PhpArray.Put(titled, messageKey, RegionMessage(regionKey, MessageStatus(byRegion, regionKey)));
    if regionKey in byRegion.vals then
      var blocks := byRegion.vals[regionKey];
      PutBlockRowsEffect(messaged, blocks.keys, blocks.vals, megaMenuId, linkId, regionKey);
      PutBlockRows(messaged, blocks.keys, blocks.vals, megaMenuId, linkId, regionKey)
    else messaged
  }

  /** The ids of the blocks the region holds, in order. */
  function RegionBlockIds(byRegion: Render.Grouped, regionKey: string): seq<string> {
    if regionKey in byRegion.vals then byRegion.vals[regionKey].keys else []
  }

  /** The blocks table after the region loop has run over `regionKeys`. */
  function RegionsRows(regionKeys: seq<string>, regions: PhpArray.Arr<string>, byRegion: Render.Grouped,
                       megaMenuId: string, linkId: string): PhpArray.Arr<Row>
    requires forall k :: k in regionKeys ==> k in regions.vals
  {
    if regionKeys == [] then PhpArray.Empty()
    else
      var init := regionKeys[..|regionKeys| - 1];
      var k := regionKeys[|regionKeys| - 1];
      RegionRows(RegionsRows(init, regions, byRegion, megaMenuId, linkId), k, regions.vals[k], byRegion, megaMenuId, linkId)
  }

  /** The fieldset of one menu link: the layout select and the blocks table. */
  datatype LinkFieldset = LinkFieldset(layoutOptions: PhpArray.Arr<string>, layout: string,
                                       drags: seq<TableDrag>, rows: PhpArray.Arr<Row>)

  function FieldsetFor(megaMenuId: string, linkId: string, layout: string, options: PhpArray.Arr<string>,
                       regions: PhpArray.Arr<string>, byRegion: Render.Grouped): LinkFieldset
  {
    LinkFieldset(options, layout, Drags(regions.keys), RegionsRows(regions.keys, regions, byRegion, megaMenuId, linkId))
  }

  /** One more block id adds its row on top of the rows of the ids before it. */
  lemma PutBlockRowsStep(rows: PhpArray.Arr<Row>, ids: seq<string>, j: int, blocks: Configs,
                         megaMenuId: string, linkId: string, regionKey: string)
    requires 0 <= j < |ids|
    requires forall id :: id in ids ==> id in blocks
    ensures PutBlockRows(rows, ids[..j + 1], blocks, megaMenuId, linkId, regionKey) ==
      PhpArray.Put(PutBlockRows(rows, ids[..j], blocks, megaMenuId, linkId, regionKey),
                   ids[j], BlockRowOf(megaMenuId, linkId, regionKey, ids[j], blocks[ids[j]]))
  {
    assert ids[..j + 1][..j] == ids[..j];
  }

  /** The rows of one region's blocks, written one by one. */
  method PlaceBlockRows(rows: PhpArray.Arr<Row>, blocks: PhpArray.Arr<Config>,
                        megaMenuId: string, linkId: string, regionKey: string)
    returns (out: PhpArray.Arr<Row>)
    ensures out == PutBlockRows(rows, blocks.keys, blocks.vals, megaMenuId, linkId, regionKey)
  {
    out := rows;
    var j := 0;
    while j < |blocks.keys|
      invariant 0 <= j <= |blocks.keys|
      invariant out == PutBlockRows(rows, blocks.keys[..j], blocks.vals, megaMenuId, linkId, regionKey)
    {
      var id := blocks.keys[j];
      PutBlockRowsStep(rows, blocks.keys, j, blocks.vals, megaMenuId, linkId, regionKey);
      out := PhpArray.Put(out, id, BlockRowOf(megaMenuId, linkId, regionKey, id, blocks.vals[id]));
      j := j + 1;
    }
    assert blocks.keys[..j] == blocks.keys;
  }

  /** One pass of the region loop: title row, message row, then the region's blocks. */
  method AddRegion(rows: PhpArray.Arr<Row>, key: string, name: string, byRegion: Render.Grouped,
                   megaMenuId: string, linkId: string)
    returns (out: PhpArray.Arr<Row>)
    ensures out == RegionRows(rows, key, name, byRegion, megaMenuId, linkId)
  {
    out := PhpArray.Put(rows, key, TitleRow(megaMenuId, linkId, key, name));
    out := PhpArray.Put(out, key + "-message", RegionMessage(key, MessageStatus(byRegion, key)));
    if key in byRegion.vals {
      out := PlaceBlockRows(out, byRegion.vals[key], megaMenuId, linkId, key);
    }
  }

  /** One more region adds its drags and rows after those of the regions before it. */
  lemma RegionsStep(regions: PhpArray.Arr<string>, i: int, byRegion: Render.Grouped, megaMenuId: string, linkId: string)
    requires 0 <= i < |regions.keys|
    ensures var key := regions.keys[i];
            Drags(regions.keys[..i + 1]) == Drags(regions.keys[..i]) + RegionDrags(key)
    ensures var key := regions.keys[i];
            RegionsRows(regions.keys[..i + 1], regions, byRegion, megaMenuId, linkId) ==
            RegionRows(RegionsRows(regions.keys[..i], regions, byRegion, megaMenuId, linkId), key, regions.vals[key],
                       byRegion, megaMenuId, linkId)
  {
    assert regions.keys[..i + 1][..i] == regions.keys[..i];
  }

  /** The region loop of `form` for one link. */
  method BuildFieldset(megaMenuId: string, linkId: string, layout: string, options: PhpArray.Arr<string>,
                       regions: PhpArray.Arr<string>, byRegion: Render.Grouped)
    returns (f: LinkFieldset)
    ensures f == FieldsetFor(megaMenuId, linkId, layout, options, regions, byRegion)
  {
    var drags: seq<TableDrag> := [];
    var rows: PhpArray.Arr<Row> := PhpArray.Empty();
    var i := 0;
    while i < |regions.keys|
      invariant 0 <= i <= |regions.keys|
      invariant drags == Drags(regions.keys[..i])
      invariant rows == RegionsRows(regions.keys[..i], regions, byRegion, megaMenuId, linkId)
    {
      var key := regions.keys[i];
      RegionsStep(regions, i, byRegion, megaMenuId, linkId);
      drags := drags + RegionDrags(key);
      rows := AddRegion(rows, key, regions.vals[key], byRegion, megaMenuId, linkId);
      i := i + 1;
    }
    assert regions.keys[..i] == regions.keys;
    f := LinkFieldset(options, layout, drags, rows);
  }

  /** The blocks of a link grouped by region, or nothing when no collection is cached for it. */
  function ByRegion(cached: map<string, Configs>, linkId: string, group: Configs -> Render.Grouped): Render.Grouped {
    if linkId in cached then group(cached[linkId]) else PhpArray.Empty()
  }

  /** The fieldset of the link stored under `id`: its layout's regions and its cached blocks. */
  function StoredFieldset(id: string, megaMenuId: string, links: map<string, LinkConfig>,
                          cached: map<string, Configs>, defs: map<string, Render.LayoutDefinition>,
                          options: PhpArray.Arr<string>, group: Configs -> Render.Grouped): LinkFieldset
  {
    var layout := LinkLayout(links, id);
    FieldsetFor(megaMenuId, id, layout, options, LayoutRegions(layout, defs), ByRegion(cached, id, group))
  }

  /**
   * `$form['links']` after the link loop has run over `elementIds`: one
   * fieldset per element under its sanitised id, built from the layout stored
   * under that id and the blocks cached for it.
   */
  function LinksTable(elementIds: seq<string>, megaMenuId: string, links: map<string, LinkConfig>,
                      cached: map<string, Configs>, defs: map<string, Render.LayoutDefinition>,
                      options: PhpArray.Arr<string>, group: Configs -> Render.Grouped): PhpArray.Arr<LinkFieldset>
  {
    if elementIds == [] then PhpArray.Empty()
    else
      var init := elementIds[..|elementIds| - 1];
      var id := Render.SafeKey(elementIds[|elementIds| - 1]);
      PhpArray.Put(LinksTable(init, megaMenuId, links, cached, defs, options, group), id,
                   StoredFieldset(id, megaMenuId, links, cached, defs, options, group))
  }

  /** The sanitised ids of `elementIds`. */
  function SafeIds(elementIds: seq<string>): (r: set<string>)
    ensures forall k :: k in r ==> '.' !in k
  {
    if elementIds == [] then {} else SafeIds(elementIds[..|elementIds| - 1]) + {Render.SafeKey(elementIds[|elementIds| - 1])}
  }

  lemma {:induction false} SafeIdsContains(elementIds: seq<string>, i: int)
    requires 0 <= i < |elementIds|
    ensures Render.SafeKey(elementIds[i]) in SafeIds(elementIds)
  {
    var init := elementIds[..|elementIds| - 1];
    if i < |init| {
      assert elementIds[i] == init[i];
      SafeIdsContains(init, i);
    }
  }

  /**
   * `$form['links']` holds exactly the sanitised ids of the menu link
   * elements: every element gets a fieldset and no key contains a dot.
   */
  lemma {:induction false} LinksTableKeys(elementIds: seq<string>, megaMenuId: string, links: map<string, LinkConfig>,
                                          cached: map<string, Configs>, defs: map<string, Render.LayoutDefinition>,
                                          options: PhpArray.Arr<string>, group: Configs -> Render.Grouped)
    ensures LinksTable(elementIds, megaMenuId, links, cached, defs, options, group).vals.Keys == SafeIds(elementIds)
  {
    if elementIds != [] {
      var init := elementIds[..|elementIds| - 1];
      LinksTableKeys(init, megaMenuId, links, cached, defs, options, group);
    }
  }

  /** Every menu link element gets a fieldset under its sanitised id, and no key contains a dot. */
  lemma EveryElementHasAFieldset(elementIds: seq<string>, megaMenuId: string, links: map<string, LinkConfig>,
                                 cached: map<string, Configs>, defs: map<string, Render.LayoutDefinition>,
                                 options: PhpArray.Arr<string>, group: Configs -> Render.Grouped)
    ensures var r := LinksTable(elementIds, megaMenuId, links, cached, defs, options, group);
      && (forall i :: 0 <= i < |elementIds| ==> Render.SafeKey(elementIds[i]) in r.vals)
      && (forall k :: k in r.vals ==> '.' !in k)
  {
    LinksTableKeys(elementIds, megaMenuId, links, cached, defs, options, group);
    forall i | 0 <= i < |elementIds|
      ensures Render.SafeKey(elementIds[i]) in SafeIds(elementIds)
    {
      SafeIdsContains(elementIds, i);
    }
  }

  /** The fieldset under a key is built from the layout and the blocks stored under that same key. */
  lemma {:induction false} LinksTableFieldsets(elementIds: seq<string>, megaMenuId: string, links: map<string, LinkConfig>,
                                               cached: map<string, Configs>, defs: map<string, Render.LayoutDefinition>,
                                               options: PhpArray.Arr<string>, group: Configs -> Render.Grouped)
    ensures var r := LinksTable(elementIds, megaMenuId, links, cached, defs, options, group);
      forall k :: k in r.vals ==> r.vals[k] == StoredFieldset(k, megaMenuId, links, cached, defs, options, group)
  {
    if elementIds != [] {
      var init := elementIds[..|elementIds| - 1];
      var id := Render.SafeKey(elementIds[|elementIds| - 1]);
      var prev := LinksTable(init, megaMenuId, links, cached, defs, options, group);
      var r := LinksTable(elementIds, megaMenuId, links, cached, defs, options, group);
      assert r == PhpArray.Put(prev, id, StoredFieldset(id, megaMenuId, links, cached, defs, options, group));
      LinksTableFieldsets(init, megaMenuId, links, cached, defs, options, group);
      forall k | k in r.vals
        ensures r.vals[k] == StoredFieldset(k, megaMenuId, links, cached, defs, options, group)
      {
        if k != id {
          assert k in prev.vals;
        }
      }
    }
  }

  /** Adding one element to the link loop writes its fieldset under its sanitised id. */
  lemma LinksTableStep(elementIds: seq<string>, e: string, megaMenuId: string, links: map<string, LinkConfig>,
                       cached: map<string, Configs>, defs: map<string, Render.LayoutDefinition>,
                       options: PhpArray.Arr<string>, group: Configs -> Render.Grouped)
    ensures var id := Render.SafeKey(e);
      LinksTable(elementIds + [e], megaMenuId, links, cached, defs, options, group)
        == PhpArray.Put(LinksTable(elementIds, megaMenuId, links, cached, defs, options, group), id,
                        StoredFieldset(id, megaMenuId, links, cached, defs, options, group))
  {
    assert (elementIds + [e])[..|elementIds|] == elementIds;
  }

  /** One pass of the link loop: the fieldset of the link stored under `id`. */
  method BuildLinkFieldset(id: string, megaMenuId: string, links: map<string, LinkConfig>,
                           cached: map<string, Configs>, defs: map<string, Render.LayoutDefinition>,
                           options: PhpArray.Arr<string>, group: Configs -> Render.Grouped)
    returns (f: LinkFieldset)
    ensures f == StoredFieldset(id, megaMenuId, links, cached, defs, options, group)
  {
    var layout := LinkLayout(links, id);
    var regions := LayoutRegions(layout, defs);
    var byRegion := if id in cached then group(cached[id]) else PhpArray.Empty();
    f := BuildFieldset(megaMenuId, id, layout, options, regions, byRegion);
  }

  /** The link loop of `form`. */
  method BuildLinks(elementIds: seq<string>, megaMenuId: string, links: map<string, LinkConfig>,
                    cached: map<string, Configs>, defs: map<string, Render.LayoutDefinition>,
                    options: PhpArray.Arr<string>, group: Configs -> Render.Grouped)
    returns (r: PhpArray.Arr<LinkFieldset>)
    ensures r == LinksTable(elementIds, megaMenuId, links, cached, defs, options, group)
  {
    r := PhpArray.Empty();
    var i := 0;
    while i < |elementIds|
      invariant 0 <= i <= |elementIds|
      invariant r == LinksTable(elementIds[..i], megaMenuId, links, cached, defs, options, group)
    {
      var id := Render.SafeKey(elementIds[i]);
      var fieldset := BuildLinkFieldset(id, megaMenuId, links, cached, defs, options, group);
      LinksTableStep(elementIds[..i], elementIds[i], megaMenuId, links, cached, defs, options, group);
      assert elementIds[..i + 1] == elementIds[..i] + [elementIds[i]];
      r := PhpArray.Put(r, id, fieldset);
      i := i + 1;
    }
    assert elementIds[..i] == elementIds;
  }

  /** What `form` builds: the general fields' locks and the links container. */
  datatype EditFormBuild = EditFormBuild(locks: GeneralLocks, links: PhpArray.Arr<LinkFieldset>)

  /**
   * `MegaMenuEditForm::form`. It first reads every stored link's collection
   * (`getAllBlocksSortedByLink`), then builds one fieldset per menu link
   * element from the state that leaves.
   */
  method Form(entity: MegaMenu, elementIds: seq<string>, defs: map<string, Render.LayoutDefinition>,
              pluginOptions: PhpArray.Arr<string>, group: Configs -> Render.Grouped)
    returns (form: EditFormBuild)
    requires entity.Valid()
    modifies entity`collections
    ensures entity.Valid()
    ensures forall k :: entity.Blocks(k) == old(entity.Blocks(k))
    ensures entity.collections.Keys == old(entity.collections).Keys + entity.links.Keys
    ensures form.locks == GeneralLocksAsWritten(Some(entity.name), Some(entity.menu))
    ensures form.links == LinksTable(elementIds, entity.name, entity.links, ConfigsOf(entity.collections),
                                     defs, LayoutOptions(pluginOptions), group)
  {
    var options := LayoutOptions(pluginOptions);
    var blocks := entity.GetAllBlocksSortedByLink();
    var cached := ConfigsOf(blocks);
    var links := BuildLinks(elementIds, entity.name, entity.links, cached, defs, options, group);
    form := EditFormBuild(GeneralLocksAsWritten(Some(entity.name), Some(entity.menu)), links);
  }

  /**
   * A region's "Place block" link leads to the block form with this link and
   * region, so the block placed there is stored under the link id whose
   * fieldset shows the region.
   */
  lemma PlaceBlockTargetsItsRegion(megaMenuId: string, linkId: string, regionKey: string, regionName: string)
    requires regionKey != NO_REGION
    ensures var t := TitleRow(megaMenuId, linkId, regionKey, regionName);
      && t.placeBlock.Some?
      && t.placeBlock.value.megaMenu == megaMenuId
      && BlockForms.QueryValue(t.placeBlock.value.query, "link") == Some(linkId)
      && BlockForms.QueryValue(t.placeBlock.value.query, "region") == Some(regionKey)
  {
  }

  /* ---------------------------------------------------------------------- */
  /* MegaMenuEditForm::buildEntity                                          */
  /* ---------------------------------------------------------------------- */

  /** One submitted link: its layout and the block table's values, None when they are not an array. */
  datatype SubmittedLink = SubmittedLink(layout: string, blocks: Option<PhpArray.Arr<Config>>)

  /** The submitted form values `buildEntity` reads. */
  datatype Submission = Submission(labelText: string, name: string, menu: string, renderContentOutside: bool,
                                   links: PhpArray.Arr<SubmittedLink>)

  /** Whether a submitted link carries block updates: an array with at least one entry. */
  predicate HasUpdates(link: SubmittedLink) {
    link.blocks.Some? && |link.blocks.value.keys| > 0
  }

  /**
   * Whether every block update of `link` names a block the entity holds under
   * `key`; `updateBlock` throws on the first that does not.
   */
  ghost predicate UpdatesKnown(link: SubmittedLink, blocks: Configs) {
    HasUpdates(link) ==> forall b :: b in link.blocks.value.vals ==> b in blocks
  }

  /** The blocks of a link after every update in `updates` whose id is among `ids`. */
  function Updated(blocks: Configs, updates: map<string, Config>, ids: seq<string>): (r: Configs)
    ensures r.Keys == blocks.Keys
    ensures forall b :: b in blocks && b in ids && b in updates ==> r[b] == PhpArray.Plus(updates[b], blocks[b])
    ensures forall b :: b in blocks && (b !in ids || b !in updates) ==> r[b] == blocks[b]
  {
    map b | b in blocks :: if b in ids && b in updates then PhpArray.Plus(updates[b], blocks[b]) else blocks[b]
  }

  /** Applying one more update, to a block not updated yet, is one `updateBlock`. */
  lemma UpdatedStep(blocks: Configs, updates: map<string, Config>, ids: seq<string>, b: string)
    requires b in blocks && b in updates && b !in ids
    ensures var u := Updated(blocks, updates, ids);
      Updated(blocks, updates, ids + [b]) == u[b := PhpArray.Plus(updates[b], u[b])]
  {
    var u := Updated(blocks, updates, ids);
    var v := Updated(blocks, updates, ids + [b]);
    forall x | x in v
      ensures v[x] == u[b := PhpArray.Plus(updates[b], u[b])][x]
    {
      if x == b {
        assert u[b] == blocks[b];
      } else {
        assert (x in ids + [b]) == (x in ids);
      }
    }
  }

  /** A link's blocks once `buildEntity` has handled its submission. */
  function AfterSubmission(blocks: Configs, link: SubmittedLink): Configs {
    if HasUpdates(link) then Updated(blocks, link.blocks.value.vals, link.blocks.value.keys) else blocks
  }

  /**
   * The collections map `b` keeps every entry of `a` and has at most the
   * link `key` besides.
   */
  ghost predicate Extends(a: map<string, BlockCollection>, b: map<string, BlockCollection>, key: string) {
    && a.Keys <= b.Keys <= a.Keys + {key}
    && forall k :: k in a ==> b[k] == a[k]
  }

  /** One pass of the block loop: `updateBlock` with the submitted configuration of block `b`. */
  method UpdateOne(entity: MegaMenu, key: string, b: string, updates: map<string, Config>,
                   ghost before: Configs, ghost ids: seq<string>)
    returns (updated: bool)
    requires entity.Valid() && key in entity.collections
    requires entity.Blocks(key) == Updated(before, updates, ids)
    requires b in updates && b !in ids
    modifies entity`collections, entity.collections.Values
    ensures entity.Valid() && entity.collections == old(entity.collections)
    ensures updated <==> b in before
    ensures forall k ::
      entity.Blocks(k) == if k == key && updated then Updated(before, updates, ids + [b]) else old(entity.Blocks(k))
  {
    updated := entity.UpdateBlock(key, b, updates[b]);
    assert entity.collections == old(entity.collections);
    if updated {
      UpdatedStep(before, updates, ids, b);
    }
  }

  /**
   * The block loop of one submitted link, once its collection is cached:
   * `updateBlock` for each block, in order, stopping at the first unknown one.
   */
  method UpdateAll(entity: MegaMenu, key: string, updates: PhpArray.Arr<Config>) returns (ok: bool)
    requires entity.Valid() && key in entity.collections
    modifies entity`collections, entity.collections.Values
    ensures entity.Valid() && entity.collections == old(entity.collections)
    ensures ok <==> forall b :: b in updates.vals ==> b in old(entity.Blocks(key))
    ensures ok ==> entity.Blocks(key) == Updated(old(entity.Blocks(key)), updates.vals, updates.keys)
    ensures forall k :: k != key ==> entity.Blocks(k) == old(entity.Blocks(k))
  {
    ghost var before := entity.Blocks(key);
    var j := 0;
    while j < |updates.keys|
      invariant 0 <= j <= |updates.keys|
      invariant entity.Valid() && entity.collections == old(entity.collections)
      invariant forall b :: b in updates.keys[..j] ==> b in before
      invariant forall k ::
        entity.Blocks(k) == if k == key then Updated(before, updates.vals, updates.keys[..j]) else old(entity.Blocks(k))
    {
      var b := updates.keys[j];
      assert b !in updates.keys[..j];
      var updated := UpdateOne(entity, key, b, updates.vals, before, updates.keys[..j]);
      if !updated {
        return false;
      }
      assert updates.keys[..j + 1] == updates.keys[..j] + [b];
      j := j + 1;
    }
    assert updates.keys[..j] == updates.keys;
    assert forall b :: b in updates.vals ==> b in updates.keys;
    ok := true;
  }

  /**
   * The block loop of one submitted link. Every `updateBlock` starts by
   * reading the link's collection, so the loop reads it once up front; that
   * read is the one that memoises it.
   */
  method ApplyBlockUpdates(entity: MegaMenu, key: string, updates: PhpArray.Arr<Config>) returns (ok: bool)
    requires entity.Valid()
    requires |updates.keys| > 0
    modifies entity`collections, entity.collections.Values
    ensures entity.Valid()
    ensures ok <==> forall b :: b in updates.vals ==> b in old(entity.Blocks(key))
    ensures ok ==> entity.Blocks(key) == Updated(old(entity.Blocks(key)), updates.vals, updates.keys)
    ensures forall k :: k != key ==> entity.Blocks(k) == old(entity.Blocks(k))
    ensures Extends(old(entity.collections), entity.collections, key)
    ensures key in entity.collections
    ensures key !in old(entity.collections) ==> fresh(entity.collections[key])
  {
    var _ := entity.GetBlocksByLink(key);
    ok := UpdateAll(entity, key, updates);
  }

  /** The collections map `b` keeps every entry of `a`. */
  ghost predicate Grows(a: map<string, BlockCollection>, b: map<string, BlockCollection>) {
    && a.Keys <= b.Keys
    && forall k :: k in a ==> b[k] == a[k]
  }

  /** The links map after setting the layout of each link of `keys`, in order. */
  function WithLayouts(links: map<string, LinkConfig>, keys: seq<string>, submitted: map<string, SubmittedLink>): map<string, LinkConfig>
    requires forall k :: k in keys ==> k in submitted
  {
    if keys == [] then links
    else
      var k := keys[|keys| - 1];
      WithLayout(WithLayouts(links, keys[..|keys| - 1], submitted), k, submitted[k].layout)
  }

  /**
   * After the link loop every submitted link has its submitted layout, every
   * other link keeps its own, and no link's stored blocks change.
   */
  lemma {:induction false} WithLayoutsEffect(links: map<string, LinkConfig>, keys: seq<string>, submitted: map<string, SubmittedLink>)
    requires forall k :: k in keys ==> k in submitted
    ensures forall k ::
      LinkLayout(WithLayouts(links, keys, submitted), k) == if k in keys then submitted[k].layout else LinkLayout(links, k)
    ensures forall k :: StoredBlocks(WithLayouts(links, keys, submitted), k) == StoredBlocks(links, k)
  {
    if keys != [] {
      var init := keys[..|keys| - 1];
      WithLayoutsEffect(links, init, submitted);
      assert forall k :: k in keys <==> k in init || k == keys[|keys| - 1];
    }
  }

  /**
   * One pass of the link loop of `buildEntity`: the clone takes the
   * submitted layout, and the block updates go to the original entity.
   */
  method ApplyLink(entity: MegaMenu, clone: MegaMenu, key: string, link: SubmittedLink) returns (ok: bool)
    requires entity.Valid() && clone != entity
    modifies clone`links, entity`collections, entity.collections.Values
    ensures entity.Valid()
    ensures clone.links == WithLayout(old(clone.links), key, link.layout)
    ensures ok <==> UpdatesKnown(link, old(entity.Blocks(key)))
    ensures ok ==> entity.Blocks(key) == AfterSubmission(old(entity.Blocks(key)), link)
    ensures forall k :: k != key ==> entity.Blocks(k) == old(entity.Blocks(k))
    ensures Grows(old(entity.collections), entity.collections)
    ensures forall k :: k in entity.collections && k !in old(entity.collections) ==> fresh(entity.collections[k])
  {
    clone.SetLinkLayout(key, link.layout);
    if !HasUpdates(link) {
      return true;
    }
    ok := ApplyBlockUpdates(entity, key, link.blocks.value);
  }

  /**
   * The link loop of `buildEntity`: for each submitted link in order, the
   * clone's layout, then the block updates on the original entity, until
   * one throws.
   */
  method ApplyLinks(entity: MegaMenu, clone: MegaMenu, links: PhpArray.Arr<SubmittedLink>) returns (ok: bool)
    requires entity.Valid() && clone != entity
    modifies clone`links, entity`collections, entity.collections.Values
    ensures entity.Valid()
    ensures ok <==> forall k :: k in links.vals ==> UpdatesKnown(links.vals[k], old(entity.Blocks(k)))
    ensures ok ==> clone.links == WithLayouts(old(clone.links), links.keys, links.vals)
    ensures ok ==> forall k ::
      entity.Blocks(k) == if k in links.vals then AfterSubmission(old(entity.Blocks(k)), links.vals[k]) else old(entity.Blocks(k))
    ensures Grows(old(entity.collections), entity.collections)
  {
    var i := 0;
    while i < |links.keys|
      invariant 0 <= i <= |links.keys|
      invariant entity.Valid()
      invariant clone.links == WithLayouts(old(clone.links), links.keys[..i], links.vals)
      invariant forall k :: k in links.keys[..i] ==> UpdatesKnown(links.vals[k], old(entity.Blocks(k)))
      invariant forall k ::
        entity.Blocks(k) == if k in links.keys[..i] then AfterSubmission(old(entity.Blocks(k)), links.vals[k]) else old(entity.Blocks(k))
      invariant Grows(old(entity.collections), entity.collections)
      invariant forall k :: k in entity.collections && k !in old(entity.collections) ==> fresh(entity.collections[k])
    {
      var key := links.keys[i];
      assert links.keys[..i + 1] == links.keys[..i] + [key];
      assert (links.keys[..i] + [key])[..i] == links.keys[..i];
      assert key !in links.keys[..i];
      ok := ApplyLink(entity, clone, key, links.vals[key]);
      if !ok {
        return;
      }
      i := i + 1;
    }
    assert links.keys[..i] == links.keys;
    assert forall k :: k in links.vals ==> k in links.keys;
    ok := true;
  }

  /** `clone $this->entity` with the submitted general values set on the copy. */
  method CloneWith(entity: MegaMenu, values: Submission) returns (clone: MegaMenu)
    requires entity.Valid()
    ensures fresh(clone) && clone.Valid()
    ensures clone.labelText == values.labelText && clone.name == values.name && clone.menu == values.menu
    ensures clone.renderContentOutside == values.renderContentOutside
    ensures clone.links == entity.links && clone.collections == entity.collections && clone.stored == entity.stored
  {
    clone := new MegaMenu.Clone(entity);
    clone.labelText := values.labelText;
    clone.name := values.name;
    clone.menu := values.menu;
    clone.renderContentOutside := values.renderContentOutside;
  }

  /**
   * `buildEntity`: a shallow clone of the entity carrying the submitted
   * general values and layouts. The block updates are applied to the
   * original entity, whose cached collections the clone shares; `ok` is false
   * when `updateBlock` throws on a block the link does not hold.
   */
  method BuildEntity(entity: MegaMenu, values: Submission) returns (clone: MegaMenu, ok: bool)
    requires entity.Valid()
    modifies entity`collections, entity.collections.Values
    ensures fresh(clone) && clone.Valid() && entity.Valid()
    ensures clone.labelText == values.labelText && clone.name == values.name && clone.menu == values.menu
    ensures clone.renderContentOutside == values.renderContentOutside
    ensures clone.collections == old(entity.collections) && clone.stored == old(entity.stored)
    ensures ok <==> forall k :: k in values.links.vals ==> UpdatesKnown(values.links.vals[k], old(entity.Blocks(k)))
    ensures ok ==> forall k ::
      clone.GetLinkLayout(k) == if k in values.links.vals then values.links.vals[k].layout else old(entity.GetLinkLayout(k))
    ensures ok ==> forall k ::
      entity.Blocks(k) == if k in values.links.vals then AfterSubmission(old(entity.Blocks(k)), values.links.vals[k]) else old(entity.Blocks(k))
    // The clone sees the updates of every link whose collection was cached
    // before, through the shared collections, and none of the others.
    ensures ok ==> forall k :: k in old(entity.collections) ==> clone.Blocks(k) == entity.Blocks(k)
    ensures ok ==> forall k :: k !in old(entity.collections) ==> clone.Blocks(k) == old(entity.Blocks(k))
  {
    clone := CloneWith(entity, values);
    ok := ApplyLinks(entity, clone, values.links);
    if ok {
      WithLayoutsEffect(old(entity.links), values.links.keys, values.links.vals);
      assert forall k :: k in values.links.keys <==> k in values.links.vals;
    }
  }
}
