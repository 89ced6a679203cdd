/**
 * The mega menu configuration entity (src/Entity/MegaMenu.php): per menu
 * link, a layout id and the configuration of the blocks placed in it.
 *
 * Block collections are read lazily: the first read of a link wraps the
 * stored block configuration in a collection object and caches it; block
 * edits go to that cached object, and `preSave` writes every cached
 * collection back into `links`. The collection objects are shared by a PHP
 * `clone` of the entity, so they are objects here as well.
 */
module Entity {
  import opened Wrappers
  import PhpArray

  /** A link that shows no mega menu content (src/Contract/MegaMenuInterface.php:12). */
  const NO_LAYOUT := "mega_menu.no_layout"

  /** The pseudo-region for blocks without a region (src/Contract/MegaMenuInterface.php:18). */
  const NO_REGION := "mega_menu.no_region"

  /** A value in a configuration array. */
  datatype Value = Null | Bool(b: bool) | Int(i: int) | Str(s: string) | Nested(entries: map<string, Value>)

  /** A block's configuration array (`id`, `label`, `region`, `weight`, `link`, ...). */
  type Config = map<string, Value>

  /** Block configurations by block id. */
  type Configs = map<string, Config>

  /**
   * `links[$link_id]`: its `layout` (None when unset or null) and its
   * `blocks` (None when unset or not an array).
   */
  datatype LinkConfig = LinkConfig(layout: Option<string>, blocks: Option<Configs>)

  const EmptyLink := LinkConfig(None, None)

  /** `getLinkLayout`: the stored layout of link `l`, `NO_LAYOUT` when it has none. */
  function LinkLayout(links: map<string, LinkConfig>, l: string): (r: string)
    ensures l in links && links[l].layout.Some? ==> r == links[l].layout.value
    ensures l !in links || links[l].layout.None? ==> r == NO_LAYOUT
  {
    if l in links then links[l].layout.GetOr(NO_LAYOUT) else NO_LAYOUT
  }

  /** The configurations a first `getBlocksByLink(l)` wraps: the stored array, or none. */
  function StoredBlocks(links: map<string, LinkConfig>, l: string): (r: Configs)
    ensures l in links && links[l].blocks.Some? ==> r == links[l].blocks.value
    ensures l !in links || links[l].blocks.None? ==> r == map[]
  {
    if l in links then links[l].blocks.GetOr(map[]) else map[]
  }

  /**
   * `links` with the layout of link `l` set to `layout`: a link without an
   * entry gets one holding only the layout.
   */
  function WithLayout(links: map<string, LinkConfig>, l: string, layout: string): (r: map<string, LinkConfig>)
    ensures r.Keys == links.Keys + {l}
    ensures LinkLayout(r, l) == layout
    ensures forall k :: k != l ==> LinkLayout(r, k) == LinkLayout(links, k)
    ensures forall k :: StoredBlocks(r, k) == StoredBlocks(links, k)
  {
    links[l := (if l in links then links[l] else EmptyLink).(layout := Some(layout))]
  }

  /**
   * `preSave`: `links[k]['blocks']` becomes the configuration of each cached
   * collection `k`; every other entry, and every layout, stays as it was.
   */
  function WriteBack(links: map<string, LinkConfig>, cached: map<string, Configs>): (r: map<string, LinkConfig>)
    ensures r.Keys == links.Keys + cached.Keys
    ensures forall k :: k in cached ==> r[k].blocks == Some(cached[k])
    ensures forall k :: k in links && k !in cached ==> r[k] == links[k]
    ensures forall k :: LinkLayout(r, k) == LinkLayout(links, k)
  {
    map k | k in links.Keys + cached.Keys ::
      if k in cached then (if k in links then links[k] else EmptyLink).(blocks := Some(cached[k]))
      else links[k]
  }

  /**
   * Saving and loading again is lossless: after the write back, a fresh
   * read of any link sees what its cached collection held, and a link
   * without a cached collection sees what it saw before.
   */
  lemma WriteBackThenRead(links: map<string, LinkConfig>, cached: map<string, Configs>, k: string)
    ensures k in cached ==> StoredBlocks(WriteBack(links, cached), k) == cached[k]
    ensures k !in cached ==> StoredBlocks(WriteBack(links, cached), k) == StoredBlocks(links, k)
  {
  }

  /** A block plugin collection: the configuration of each block instance, by block id. */
  class BlockCollection {
    var configs: Configs

    constructor (configs: Configs)
      ensures this.configs == configs
    {
      this.configs := configs;
    }
  }

  /** The configuration of each collection, by link. */
  function ConfigsOf(collections: map<string, BlockCollection>): (r: map<string, Configs>)
    reads collections.Values
    ensures r.Keys == collections.Keys
    ensures forall k :: k in collections ==> r[k] == collections[k].configs
  {
    map k | k in collections :: collections[k].configs
  }

  /** What `save()` hands to configuration storage (the entity's `config_export`). */
  datatype Export = Export(
    name: string, labelText: string, menu: string,
    links: map<string, LinkConfig>, renderContentOutside: bool)

  class MegaMenu {
    var name: string
    var labelText: string
    var menu: string
    var renderContentOutside: bool
    var links: map<string, LinkConfig>
    /** `block_collections`: the collections read so far, by link id. */
    var collections: map<string, BlockCollection>
    /** The export passed to storage by the last `save()`, if any. */
    var stored: Option<Export>

    /** Two links never share a collection object. */
    ghost predicate Valid()
      reads this
    {
      forall a, b :: a in collections && b in collections && a != b ==> collections[a] != collections[b]
    }

    /**
     * The block configurations a read of link `l` sees: those of its cached
     * collection, or those a first read would wrap.
     */
    ghost function Blocks(l: string): Configs
      reads this, collections.Values
    {
      if l in collections then collections[l].configs else StoredBlocks(links, l)
    }

    ghost function CachedConfigs(): map<string, Configs>
      reads this, collections.Values
    {
      ConfigsOf(collections)
    }

    /** An entity loaded from storage: nothing read yet. */
    constructor (name: string, labelText: string, menu: string, links: map<string, LinkConfig>, renderContentOutside: bool)
      ensures Valid()
      ensures this.name == name && this.labelText == labelText && this.menu == menu
      ensures this.links == links && this.renderContentOutside == renderContentOutside
      ensures collections == map[] && stored == None
    {
      this.name, this.labelText, this.menu := name, labelText, menu;
      this.links, this.renderContentOutside := links, renderContentOutside;
      collections, stored := map[], None;
    }

    /** PHP's shallow `clone`: the copy shares the cached collection objects. */
    constructor Clone(other: MegaMenu)
      requires other.Valid()
      ensures Valid()
      ensures name == other.name && labelText == other.labelText && menu == other.menu
      ensures links == other.links && renderContentOutside == other.renderContentOutside
      ensures collections == other.collections && stored == other.stored
    {
      name, labelText, menu := other.name, other.labelText, other.menu;
      links, renderContentOutside := other.links, other.renderContentOutside;
      collections, stored := other.collections, other.stored;
    }

    function GetLinkLayout(l: string): string
      reads this
    {
      LinkLayout(links, l)
    }

    /** The collection of link `l`, created from the stored configuration on first use. */
    method GetBlocksByLink(l: string) returns (c: BlockCollection)
      requires Valid()
      modifies this`collections
      ensures Valid()
      ensures l in collections && c == collections[l]
      ensures l in old(collections) ==> collections == old(collections)
      ensures l !in old(collections) ==> fresh(c) && collections == old(collections)[l := c]
      ensures c.configs == old(Blocks(l))
      ensures forall k :: Blocks(k) == old(Blocks(k))
    {
      if l !in collections {
        var blocks := StoredBlocks(links, l);
        c := new BlockCollection(blocks);
        collections := collections[l := c];
      }
      c := collections[l];
    }

    /** Reads every link that has configuration; returns all cached collections. */
    method GetAllBlocksSortedByLink() returns (r: map<string, BlockCollection>)
      requires Valid()
      modifies this`collections
      ensures Valid()
      ensures r == collections
      ensures collections.Keys == old(collections).Keys + links.Keys
      ensures forall k :: k in old(collections) ==> collections[k] == old(collections)[k]
      ensures forall k :: k in collections && k !in old(collections) ==> fresh(collections[k])
      ensures forall k :: Blocks(k) == old(Blocks(k))
    {
      var todo := links.Keys;
      while todo != {}
        invariant todo <= links.Keys
        invariant Valid()
        invariant collections.Keys == old(collections).Keys + (links.Keys - todo)
        invariant forall k :: k in old(collections) ==> collections[k] == old(collections)[k]
        invariant forall k :: k in collections && k !in old(collections) ==> fresh(collections[k])
        invariant forall k :: Blocks(k) == old(Blocks(k))
        decreases todo
      {
        var k :| k in todo;
        var _ := GetBlocksByLink(k);
        todo := todo - {k};
      }
      r := collections;
    }

    /** `getBlock`: the configuration of block `b` of link `l`; None where the collection would throw. */
    method GetBlock(l: string, b: string) returns (r: Option<Config>)
      requires Valid()
      modifies this`collections
      ensures Valid()
      ensures r == if b in old(Blocks(l)) then Some(old(Blocks(l))[b]) else None
      ensures collections.Keys == old(collections).Keys + {l}
      ensures forall k :: k in old(collections) ==> collections[k] == old(collections)[k]
      ensures forall k :: Blocks(k) == old(Blocks(k))
    {
      var c := GetBlocksByLink(l);
      r := if b in c.configs then Some(c.configs[b]) else None;
    }

    method HasBlock(l: string, b: string) returns (r: bool)
      requires Valid()
      modifies this`collections
      ensures Valid()
      ensures r <==> b in old(Blocks(l))
      ensures collections.Keys == old(collections).Keys + {l}
      ensures forall k :: k in old(collections) ==> collections[k] == old(collections)[k]
      ensures l !in old(collections) ==> fresh(collections[l])
      ensures forall k :: Blocks(k) == old(Blocks(k))
    {
      var c := GetBlocksByLink(l);
      r := b in c.configs;
    }

    method AddBlock(l: string, b: string, config: Config)
      requires Valid()
      modifies this`collections, collections.Values
      ensures Valid()
      ensures Blocks(l) == old(Blocks(l))[b := config]
      ensures forall k :: k != l ==> Blocks(k) == old(Blocks(k))
      ensures collections.Keys == old(collections).Keys + {l}
      ensures forall k :: k in old(collections) ==> collections[k] == old(collections)[k]
      ensures l !in old(collections) ==> fresh(collections[l])
    {
      var c := GetBlocksByLink(l);
      c.configs := c.configs[b := config];
    }

    /**
     * `updateBlock`: the new configuration over the current one (PHP `+`, so
     * keys of `config` win). `ok` is false where the collection has no block
     * `b` and `get` throws; then nothing but the cache changes.
     */
    method UpdateBlock(l: string, b: string, config: Config) returns (ok: bool)
      requires Valid()
      modifies this`collections, collections.Values
      ensures Valid()
      ensures ok <==> b in old(Blocks(l))
      ensures ok ==> Blocks(l) == old(Blocks(l))[b := PhpArray.Plus(config, old(Blocks(l))[b])]
      ensures !ok ==> Blocks(l) == old(Blocks(l))
      ensures forall k :: k != l ==> Blocks(k) == old(Blocks(k))
      ensures collections.Keys == old(collections).Keys + {l}
      ensures forall k :: k in old(collections) ==> collections[k] == old(collections)[k]
      ensures l !in old(collections) ==> fresh(collections[l])
    {
      var c := GetBlocksByLink(l);
      ok := b in c.configs;
      if ok {
        var current := c.configs[b];
        c.configs := c.configs[b := PhpArray.Plus(config, current)];
      }
    }

    method RemoveBlock(l: string, b: string)
      requires Valid()
      modifies this`collections, collections.Values
      ensures Valid()
      ensures Blocks(l) == old(Blocks(l)) - {b}
      ensures forall k :: k != l ==> Blocks(k) == old(Blocks(k))
      ensures collections.Keys == old(collections).Keys + {l}
      ensures forall k :: k in old(collections) ==> collections[k] == old(collections)[k]
      ensures l !in old(collections) ==> fresh(collections[l])
    {
      var c := GetBlocksByLink(l);
      c.configs := c.configs - {b};
    }

    method SetLinkLayout(l: string, layout: string)
      modifies this`links
      ensures links == WithLayout(old(links), l, layout)
      ensures GetLinkLayout(l) == layout
      ensures forall k :: k != l ==> GetLinkLayout(k) == old(GetLinkLayout(k))
      ensures forall k :: Blocks(k) == old(Blocks(k))
    {
      var entry := if l in links then links[l] else EmptyLink;
      links := links[l := entry.(layout := Some(layout))];
    }

    method PreSave()
      modifies this`links
      ensures links == WriteBack(old(links), CachedConfigs())
      ensures forall k :: Blocks(k) == old(Blocks(k))
      // The configuration now agrees with what every link reads.
      ensures forall k :: StoredBlocks(links, k) == Blocks(k)
    {
      var todo := collections.Keys;
      while todo != {}
        invariant todo <= collections.Keys
        invariant links.Keys == old(links).Keys + (collections.Keys - todo)
        invariant forall k :: k in collections.Keys - todo ==>
          links[k] == (if k in old(links) then old(links)[k] else EmptyLink).(blocks := Some(collections[k].configs))
        invariant forall k :: k in old(links) && (k !in collections || k in todo) ==> links[k] == old(links)[k]
        decreases todo
      {
        var k :| k in todo;
        var entry := if k in links then links[k] else EmptyLink;
        links := links[k := entry.(blocks := Some(collections[k].configs))];
        todo := todo - {k};
      }
      ghost var w := WriteBack(old(links), CachedConfigs());
      assert links.Keys == w.Keys;
      forall k | k in links
        ensures links[k] == w[k]
      {
      }
    }

    /** `save()`: the pre-save hook, then the export goes to storage. */
    method Save()
      modifies this`links, this`stored
      ensures links == WriteBack(old(links), CachedConfigs())
      ensures stored == Some(Export(name, labelText, menu, links, renderContentOutside))
      ensures forall k :: Blocks(k) == old(Blocks(k))
      ensures forall k :: StoredBlocks(links, k) == Blocks(k)
    {
      PreSave();
      stored := Some(Export(name, labelText, menu, links, renderContentOutside));
    }
  }
}
