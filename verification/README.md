# Mega menu, modelled in Dafny

The mega menu extension lets an administrator attach dropdown content to the
top-level links of a menu. Each link can be given a layout, and blocks can be
placed into the layout's regions. This project models the core of that
extension:

- `menu_script.dfy` (module `MenuScript`) covers the front-end script: panels
  that open and close on clicks, and the cancellable `mega-menu:closing`
  event. Pure transition functions carry the properties; the class
  `Dropdown` updates its panels in place, as the script does, and is proved
  against those functions.
- `mega_menu_entity.dfy` (module `Entity`) covers the mega menu configuration
  entity. It holds the per-link layouts and block configurations, and a
  memoised block collection per link. `MegaMenu` is a class, and each
  collection is an object of its own, so a PHP `clone` shares the
  collections with the original.
- `mega_menu_block.dfy` (module `Render`) covers the block that renders the
  menu. For each item whose link has a layout, it tags the item as a trigger
  and builds a content panel. The panel holds the link's blocks, region by
  region, in the layout's order, filtered by access.
- `block_form.dfy` (module `BlockForms`) covers the block add/edit form. It
  reads `link` and `region` from the query, tags the block's configuration
  with them, upserts it into the mega menu and saves.
- `mega_menu_form.dfy` (module `MenuForms`) covers the mega menu form:
  - the layout options and a layout's regions
  - the menu select and the locks on the general fields
  - the per-link blocks table that `form` builds
  - `buildEntity`, which applies a submission
- `php_array.dfy` (module `PhpArray`) models PHP ordered arrays with string
  keys, and the array functions the core calls: `$a[$k] = $v`,
  `array_fill_keys`, `array_merge`, `array_intersect_key` and `+`.
- `wrappers.dfy` holds the `Option` type.

Foreign services become parameters:

- the layout plugin manager is a map from layout id to definition (`defs`)
- ctools' `getAllByRegion` is a function `group`
- the block access check is a predicate `allowed`
- `Element::isEmpty` is a boolean input
- storage is the entity's `stored` field, which holds the last export
  passed to `save()`

Some blocks-collection operations throw in PHP: `get` on a missing block
id, and `createInstance` on an unknown layout. Those are modelled as a
failure result (`None`, or `ok == false`).

## Model

| member | source | states |
|---|---|---|
| MenuScript.Init | assets/js/mega_menu.js:20-23 | Binding the script leaves every panel hidden and without the `visible` class, which satisfies the invariant that at most one panel is shown and the class sits exactly on the shown panels |
| MenuScript.AfterHide | assets/js/mega_menu.js:65-68 | Every panel except `current` is hidden and loses the class; `current` is untouched; the invariant is kept |
| MenuScript.AfterClosing | assets/js/mega_menu.js:39-49 | A prevented closing event leaves the panels as they are; otherwise every panel is hidden; the invariant is kept |
| MenuScript.AfterToggle | assets/js/mega_menu.js:73-99 | No target, or no panel with that id: nothing happens and the link is followed. A shown target fires the closing event and closes through it. A hidden target opens, with the class, while every other panel is hidden and no event fires. In both of those cases the link is not followed. The invariant is kept |
| MenuScript.AfterOutsideClick | assets/js/mega_menu.js:56-60 | The closing event fires exactly when the click is outside the container, whatever the panels' state; a click inside changes nothing; the default action is never prevented |
| MenuScript.Step | assets/js/mega_menu.js:26-34 | Handling any event keeps the same set of panels |
| MenuScript.RunConsistent | assets/js/mega_menu.js:17-99 | Any sequence of clicks and `close()` calls keeps the invariant and the set of panels |
| MenuScript.AtMostOneShownAfterAnyRun | assets/js/mega_menu.js:17-99 | From the freshly bound script, no sequence of events ever shows two panels at once |
| MenuScript.OpenThenCloseIsClosed | assets/js/mega_menu.js:90-96 | Clicking a hidden panel's trigger and then clicking it again, when nobody prevents the closing event, fires that event and leaves every panel hidden |
| MenuScript.SwitchPanels | assets/js/mega_menu.js:93-96 | With one panel open, clicking another trigger opens the new panel, hides the old one and fires no closing event |
| MenuScript.CloseIsClickClose | assets/js/mega_menu.js:32-34 | `close()` has the same effect as clicking the trigger of the open panel |
| MenuScript.Dropdown.constructor | assets/js/mega_menu.js:20-23 | The bound instance starts in `Init` |
| MenuScript.Dropdown.HideContent | assets/js/mega_menu.js:65-68 | The in-place update equals `AfterHide` and keeps the invariant |
| MenuScript.Dropdown.TriggerClosingEvent | assets/js/mega_menu.js:39-49 | The in-place update equals `AfterClosing` and keeps the invariant |
| MenuScript.Dropdown.OnOutsideClick | assets/js/mega_menu.js:56-60 | The new panels and the event fired equal `AfterOutsideClick` |
| MenuScript.Dropdown.ToggleContent | assets/js/mega_menu.js:73-99 | The new panels, the event fired and the prevented default equal `AfterToggle` |
| MenuScript.Dropdown.Close | assets/js/mega_menu.js:32-34 | `close()` equals `AfterClosing` and keeps the invariant |
| Entity.LinkLayout | src/Entity/MegaMenu.php:233-239 | A link's layout is its stored layout, or `mega_menu.no_layout` when it has none |
| Entity.StoredBlocks | src/Entity/MegaMenu.php:131-133 | A first read of a link wraps its stored block array, or nothing when it has none |
| Entity.WithLayout | src/Entity/MegaMenu.php:249-252 | Setting a layout adds the link if needed, gives it that layout, and changes no other layout and no stored blocks |
| Entity.WriteBack | src/Entity/MegaMenu.php:259-264 | Writing back puts each cached collection's configuration into its link's `blocks`. It creates entries for links that had none and leaves every other entry and every layout as it was |
| Entity.WriteBackThenRead | src/Entity/MegaMenu.php:259-264 | After the write back, a first read of a link yields what its cached collection held, or what a read yielded before when it had none |
| Entity.MegaMenu.GetBlocksByLink | src/Entity/MegaMenu.php:127-139 | The link's collection is created from its stored blocks on first use and reused afterwards; no link's blocks change |
| Entity.MegaMenu.GetAllBlocksSortedByLink | src/Entity/MegaMenu.php:146-152 | Every link with configuration gets a cached collection, and the ones cached before stay the same objects; no link's blocks change; the whole cache is returned |
| Entity.MegaMenu.GetBlock | src/Entity/MegaMenu.php:162-164 | The block's configuration, or failure when the link has no such block |
| Entity.MegaMenu.HasBlock | src/Entity/MegaMenu.php:222-224 | True exactly when the link's blocks contain the id |
| Entity.MegaMenu.AddBlock | src/Entity/MegaMenu.php:174-178 | The block is stored under the link with exactly that configuration; other links are unchanged |
| Entity.MegaMenu.UpdateBlock | src/Entity/MegaMenu.php:190-198 | Succeeds exactly when the block exists. It then stores the new configuration over the current one, with the new keys winning. On failure the blocks are unchanged; other links are unchanged either way |
| Entity.MegaMenu.RemoveBlock | src/Entity/MegaMenu.php:208-211 | The block is gone from the link; other links are unchanged |
| Entity.MegaMenu.SetLinkLayout | src/Entity/MegaMenu.php:249-252 | The link's layout becomes the given one; other layouts and all blocks are unchanged |
| Entity.MegaMenu.PreSave | src/Entity/MegaMenu.php:259-264 | The links become the write back of the cached collections. Afterwards the stored configuration of every link agrees with what a read of it sees |
| Entity.MegaMenu.Save | src/Entity/MegaMenu.php:259-264 | The pre-save hook runs, the export holds the written-back links, and storage then agrees with every link's blocks |
| Entity.MegaMenu.Clone | src/Form/MegaMenuEditForm.php:270 | A shallow copy: every field equal, and the same collection objects |
| Render.SafeKey | src/Plugin/Block/MegaMenuBlock.php:148 | Every dot becomes an underscore, everything else stays, the length is kept and no dot remains |
| Render.SafeKeyKeepsSafe | src/Plugin/Block/MegaMenuBlock.php:148 | A key without dots is left unchanged |
| Render.SafeKeyIdempotent | src/Plugin/Block/MegaMenuBlock.php:148 | Sanitising twice is sanitising once |
| Render.RegionAssignment | src/Plugin/Block/MegaMenuBlock.php:162-167 | The layout's regions, in the layout's order, each with its stored blocks or none; stored regions the layout lacks are dropped |
| PhpArray.OrderedByKeys | src/Plugin/Block/MegaMenuBlock.php:162-167 | `array_intersect_key(array_merge($empty, $full), $empty)` yields exactly the keys of `$empty`, in their order, each with the value of `$full` or the default |
| Render.AllowedBlocksExactly | src/Plugin/Block/MegaMenuBlock.php:185-226 | A region renders exactly the blocks the access check allows, each built from its own configuration and weight |
| Render.BuildRegionBlocks | src/Plugin/Block/MegaMenuBlock.php:185-226 | The inner loop produces the allowed blocks of the region in their order |
| Render.RegionBuilds | src/Plugin/Block/MegaMenuBlock.php:181-227 | One region build per assigned region, in the assignment's order |
| Render.BuildRegions | src/Plugin/Block/MegaMenuBlock.php:181-227 | The region loop produces `RegionBuilds` |
| Render.RenderedRegionBlocks | src/Plugin/Block/MegaMenuBlock.php:162-226 | Each rendered region holds exactly the allowed blocks grouped under it, each built from its own configuration, and nothing when no block is grouped under it |
| Render.RenderItem | src/Plugin/Block/MegaMenuBlock.php:147-228 | A link without a layout gets neither a target nor content. An unknown layout fails. Any other item gets target and panel id equal to its raw key, plus the layout's theme, library and regions in order |
| Render.BuildItem | src/Plugin/Block/MegaMenuBlock.php:147-228 | One pass of the item loop equals `RenderItem` on the layout and blocks stored under the sanitised key; no link's blocks change |
| Render.BuildMegaMenuTree | src/Plugin/Block/MegaMenuBlock.php:136-233 | Succeeds exactly when every item renders; then each item, in order, is `RenderItem` of that item |
| Render.Build | src/Plugin/Block/MegaMenuBlock.php:114-127 | Succeeds exactly when every item renders, and no link's blocks change. The root then carries the mega menu's id and the script library, and each item is `RenderItem` of the menu item in its place |
| Render.TriggersFindTheirPanels | src/Plugin/Block/MegaMenuBlock.php:156-170 | Every trigger the block tags names a panel of the same tree, so clicking it in the freshly bound script opens that panel |
| Render.PreRenderBlock | src/Plugin/Block/MegaMenuBlock.php:242-272 | The plugin reference is dropped. Null or empty content becomes empty markup. It keeps the block's cache settings, merged with the content's own when the content is a non-empty array. Other content is attached under `content`, keeping the rest |
| BlockForms.QueryValue | src/Form/BlockFormBase.php:114-115 | A query value is present exactly when the query has the name |
| BlockForms.TaggedConfig | src/Form/BlockFormBase.php:162-165 | The plugin configuration with `link` and `region` set from the request, overriding the plugin's own, and every other key kept |
| BlockForms.Upserted | src/Form/BlockFormBase.php:167-172 | Afterwards the link holds the block. An existing block gets the new configuration over its old one; a new block gets it as is; other blocks are kept |
| BlockForms.UpsertIdempotent | src/Form/BlockFormBase.php:167-172 | Submitting the same configuration twice leaves what submitting it once leaves |
| BlockForms.Upsert | src/Form/BlockFormBase.php:167-172 | `hasBlock` followed by `updateBlock` or `addBlock` leaves `Upserted`; other links are unchanged |
| BlockForms.PlaceAndSave | src/Form/BlockFormBase.php:167-174 | Only the link's blocks change: the general values and every layout stay. The links become the write back of the collections, and storage holds that export, including the link's new blocks |
| BlockForms.BlockForm.BuildForm | src/Form/BlockFormBase.php:110-117 | The form remembers the mega menu, the query's `link` and `region` and the prepared block |
| BlockForms.BlockForm.SubmitForm | src/Form/BlockFormBase.php:145-179 | The tagged configuration is upserted under the request's link (null as ''), and no other link, layout or general value changes. Storage then holds the block under that link, and the redirect goes to the mega menu's edit form |
| MenuForms.LayoutOptions | src/Form/MegaMenuFormBase.php:131-137 | "No layout" comes first. The plugin options follow in their order; on a clash "No layout" wins |
| MenuForms.NoLayoutOption | src/Form/MegaMenuFormBase.php:132-134 | The single "No layout" option |
| MenuForms.LayoutOptionsKeepPluginOrder | src/Form/MegaMenuFormBase.php:136 | Without a clash, every plugin option follows "No layout" in its own order |
| MenuForms.LayoutRegions | src/Form/MegaMenuFormBase.php:146-161 | An unknown layout has no regions; a known one has its region names in order |
| MenuForms.MenusListOptions | src/Form/MegaMenuFormBase.php:112-124 | Every menu's label under its id, in storage order |
| MenuForms.GeneralLocksAsWritten | src/Form/MegaMenuFormBase.php:89-101 | As written, a field is only locked when its value is set (see Findings) |
| MenuForms.ZeroMachineNameStaysEditable | src/Form/MegaMenuFormBase.php:90 | An existing mega menu named "0" keeps an editable machine name |
| MenuForms.Locks | src/Form/MegaMenuFormBase.php:89-101 | A field is locked exactly when its value is already set |
| MenuForms.LocksAgreeExceptZero | src/Form/MegaMenuFormBase.php:89-101 | The intended flags equal the written ones for every value except "0" |
| MenuForms.DragsShape | src/Form/MegaMenuEditForm.php:79-92 | Region `i` owns tabledrag entries `2i` (its region select) and `2i + 1` (its weight), and there are no others |
| MenuForms.MessageStatus | src/Form/MegaMenuEditForm.php:145-151 | "region-empty" exactly when the region has no blocks or is missing, "region-populated" otherwise |
| MenuForms.PutBlockRowsEffect | src/Form/MegaMenuEditForm.php:175-258 | Every block of the region gets a row under its id, built from its configuration; every other row is kept |
| MenuForms.PlaceBlockRows | src/Form/MegaMenuEditForm.php:175-258 | The block loop writes the rows of `PutBlockRows` |
| MenuForms.RegionRows | src/Form/MegaMenuEditForm.php:95-258 | One region adds its title row, its `-message` row and its block rows, and no other key. Later rows overwrite earlier ones under the same key |
| MenuForms.AddRegion | src/Form/MegaMenuEditForm.php:95-258 | One pass of the region loop writes `RegionRows` |
| MenuForms.BuildFieldset | src/Form/MegaMenuEditForm.php:77-260 | The region loop yields the layout select and the table: two drags per region and the rows of every region, in order |
| MenuForms.LinksTableKeys | src/Form/MegaMenuEditForm.php:39-49 | The links container holds exactly one fieldset per sanitised element id |
| MenuForms.EveryElementHasAFieldset | src/Form/MegaMenuEditForm.php:39-49 | Every menu link element gets a fieldset, and no key contains a dot |
| MenuForms.LinksTableFieldsets | src/Form/MegaMenuEditForm.php:39-75 | The fieldset under a key is built from the layout and the cached blocks of that same key |
| MenuForms.BuildLinkFieldset | src/Form/MegaMenuEditForm.php:42-75 | One pass of the link loop builds the fieldset of the link stored under the id |
| MenuForms.BuildLinks | src/Form/MegaMenuEditForm.php:39-261 | The link loop builds `LinksTable` |
| MenuForms.Form | src/Form/MegaMenuEditForm.php:17-264 | Every stored link is read first, and no link's blocks change. The locks are the flags as written (see Findings), and the links container is `LinksTable` over the cached collections |
| MenuForms.PlaceBlockTargetsItsRegion | src/Form/MegaMenuEditForm.php:124-131 | A region's "Place block" link sends the block form this mega menu and the link id and region key whose fieldset shows it |
| MenuForms.Updated | src/Form/MegaMenuEditForm.php:284-286 | Updating keeps the link's block ids. Each updated block gets its submitted configuration over the current one; the others keep theirs |
| MenuForms.UpdateOne | src/Form/MegaMenuEditForm.php:285 | One `updateBlock` extends the updates applied so far by one block, or fails on an unknown block |
| MenuForms.UpdateAll | src/Form/MegaMenuEditForm.php:284-286 | Succeeds exactly when every submitted block is known. The link's blocks then are `Updated`, and no other link changes |
| MenuForms.ApplyBlockUpdates | src/Form/MegaMenuEditForm.php:280-286 | The block loop on the original entity; at most the link's collection is added to the cache |
| MenuForms.WithLayoutsEffect | src/Form/MegaMenuEditForm.php:277-278 | After the link loop every submitted link has its submitted layout. Every other link keeps its own, and no stored blocks change |
| MenuForms.ApplyLink | src/Form/MegaMenuEditForm.php:277-286 | The clone gets the link's layout. Block updates go to the original entity and succeed exactly when they name known blocks |
| MenuForms.ApplyLinks | src/Form/MegaMenuEditForm.php:277-287 | Succeeds exactly when every submitted link's updates are known. The clone's links then carry every submitted layout, and each link's blocks on the original are `AfterSubmission` |
| MenuForms.CloneWith | src/Form/MegaMenuEditForm.php:270-275 | A fresh copy carrying the submitted label, name and menu and the value read for the flag, with the original's links and collections |
| MenuForms.BuildEntity | src/Form/MegaMenuEditForm.php:269-290 | The returned clone has the submitted general values and layouts. Block updates land on the original's collections. The clone sees them for links whose collection was cached before, and the stored blocks for the others |
| PhpArray.Union | src/Form/MegaMenuFormBase.php:136 | `$a + $b` keeps the keys of `a` in order, then the keys only `b` has; values of `a` win |
| PhpArray.Plus | src/Entity/MegaMenu.php:195 | `$configuration + $current` has every key of either, the new value winning |
| PhpArray.Merge | src/Plugin/Block/MegaMenuBlock.php:167 | `array_merge` keeps the keys of `a` in order, then the keys only `b` has; values of `b` win |
| PhpArray.IntersectKey | src/Plugin/Block/MegaMenuBlock.php:167 | `array_intersect_key` keeps the entries of `a` whose key `b` has, in the order of `a` |
| PhpArray.FillKeys | src/Plugin/Block/MegaMenuBlock.php:163 | `array_fill_keys` gives the keys in order, each with the same value |

## Left out

- DOM and jQuery mechanics are not modelled: selectors, `.once()`, event binding and the `:visible` test. The `mega-menu:closing` event is reduced to whether a listener prevents it; its `target` payload is left out.
- MenuScript.AfterOutsideClick: the script fires the closing event on every click outside the container, even when every panel is already hidden; mega_menu.js:56-60 does not test the panels' state, and neither does the model.
- Duplicate `data-mega-menu-content` ids are left out: panels are keyed by id.
- PHP turns numeric-string array keys into integers, and `array_merge` renumbers them. Keys here are strings and are never renumbered.
- The ctools block plugin collection is reduced to a map from block id to configuration. Plugin instantiation, context mapping, labels and categories are not modelled.
- BlockForms.BlockForm.SubmitForm requires the configuration to name its plugin under `id`, as every block plugin's configuration does; the plugin's own submit handler is not modelled.
- Cacheability metadata, cache keys, tags and contexts are not modelled. Translated strings, CSS classes, colspans, dialog options and other markup are also left out.
- Render.PreRenderBlock: `CacheableMetadata`'s merge of tags, contexts and max-age is an input function `mergeCache`; what the merge computes is not modelled.
- MenuForms.CloneWith: the `render_content_outside` value is an input. No form in the repository defines that element, so in the code `getValue` reads null there; the model admits that as `false` but does not force it.
- `getMenuLinkElements` is called by the edit form but is not defined in the repository. Its element ids are an input of `MenuForms.Form`, and the elements' titles are not modelled.
- `getMenuLinkItems` and `megaMenuExists` only query storage and are left out, as is loading the menu tree (`loadMenuTree`). The menu items are an input of `Render.BuildMegaMenuTree`.
- `onLayoutSelect` saves the entity and returns part of the form; saving is `Entity.MegaMenu.Save`, and the ajax response is left out.
- `Html::getId` only names the ajax wrapper and is left out.
- MenuForms.BuildEntity: when `updateBlock` throws part way, the model reports failure. It states only the cache growth on that path, not the partial layouts and updates.
- MenuForms.ApplyBlockUpdates reads the link's collection once before the loop. In the code, each `updateBlock` reads it itself. The first read is the only one that can create the collection, so the states agree.
- A layout definition without `region_names` is modelled as one whose region list is empty; `getLayoutRegions` returns no regions for both.
- The check `!isset($form['links'][$link_element_id])` inside the block loop of the edit form is always false there, because the fieldset was just created, so it is not modelled.
- The weight field's class uses the block's stored `region`, and the block row's category is the plugin's. Both are markup and are left out.
- Deleting a block through its own form (`BlockDeleteForm`) is not part of this model; `Entity.MegaMenu.RemoveBlock` models the entity operation it calls.

## Findings

| source | as written | input that shows it | evidently intended | confidence | as-written member | corrected member |
|---|---|---|---|---|---|---|
| src/Form/MegaMenuFormBase.php:90 | `'#disabled' => $this->entity->id() ? TRUE : FALSE` uses PHP truthiness, and so does the same test on the target menu at line 101 | an existing mega menu whose machine name is the string "0" | the machine name (and the menu) is locked whenever the entity already has one | low, not executed | MenuForms.GeneralLocksAsWritten, shown by MenuForms.ZeroMachineNameStaysEditable | MenuForms.Locks, proved by MenuForms.LocksAgreeExceptZero to equal the flags `MenuForms.Form` builds for every other value |
