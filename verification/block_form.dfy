/**
 * The block add/edit form (src/Form/BlockFormBase.php). Building the form
 * records the `link` and `region` query values; submitting it stores the
 * block's configuration, tagged with them, in the mega menu (update when the
 * block is already placed under that link, add otherwise), saves the mega
 * menu and redirects to its edit form.
 *
 * The block plugin is foreign: the form receives the configuration the
 * plugin reports after processing its own settings.
 */
module BlockForms {
  import opened Wrappers
  import PhpArray
  import opened Entity

  /** `$request->query->get($name)`: the query value, or null. */
  function QueryValue(query: map<string, string>, name: string): (r: Option<string>)
    ensures r.Some? <==> name in query
    ensures r.Some? ==> r.value == query[name]
  {
    if name in query then Some(query[name]) else None
  }

  /** A possibly-null string as a configuration value. */
  function ValueOf(s: Option<string>): Value {
    if s.Some? then Str(s.value) else Null
  }

  /** A possibly-null string used as an array key: PHP stores null under ''. */
  function KeyOf(s: Option<string>): string {
    s.GetOr("")
  }

  /**
   * `array_merge($configuration, ['link' => $link, 'region' => $region])`:
   * the plugin's configuration with `link` and `region` set from the request,
   * the later array winning.
   */
  function TaggedConfig(config: Config, link: Option<string>, region: Option<string>): (r: Config)
    ensures r.Keys == config.Keys + {"link", "region"}
    ensures r["link"] == ValueOf(link) && r["region"] == ValueOf(region)
    ensures forall k :: k in config && k != "link" && k != "region" ==> r[k] == config[k]
  {
    config + map["link" := ValueOf(link), "region" := ValueOf(region)]
  }

  /** A block plugin's configuration names its plugin under `id`; that is the block's id. */
  ghost predicate HasPluginId(config: Config) {
    "id" in config && config["id"].Str?
  }

  /**
   * What submitting leaves in the link's blocks: the tagged configuration
   * merged over the existing one when the block is already there, added as
   * it is otherwise.
   */
  function Upserted(blocks: Configs, id: string, tagged: Config): (r: Configs)
    ensures id in r
    ensures r.Keys == blocks.Keys + {id}
    ensures id in blocks ==> r[id] == PhpArray.Plus(tagged, blocks[id])
    ensures id !in blocks ==> r[id] == tagged
    ensures forall b :: b in blocks && b != id ==> r[b] == blocks[b]
  {
    if id in blocks then blocks[id := PhpArray.Plus(tagged, blocks[id])] else blocks[id := tagged]
  }

  /** Upserting the same configuration twice is upserting it once. */
  lemma UpsertIdempotent(blocks: Configs, id: string, tagged: Config)
    ensures Upserted(Upserted(blocks, id, tagged), id, tagged) == Upserted(blocks, id, tagged)
  {
    var once := Upserted(blocks, id, tagged);
    assert PhpArray.Plus(tagged, once[id]) == once[id];
  }

  /**
   * The placement step of `submitForm`: `updateBlock` when the link already
   * has the block, `addBlock` otherwise.
   */
  method Upsert(m: MegaMenu, key: string, id: string, config: Config)
    requires m.Valid()
    modifies m`collections, m.collections.Values
    ensures m.Valid()
    ensures m.Blocks(key) == Upserted(old(m.Blocks(key)), id, config)
    ensures forall k :: k != key ==> m.Blocks(k) == old(m.Blocks(k))
    ensures key in m.collections
  {
    var present := m.HasBlock(key, id);
    if present {
      var _ := m.UpdateBlock(key, id, config);
    } else {
      m.AddBlock(key, id, config);
    }
  }

  /**
   * The storage step of `submitForm`: the tagged configuration goes under
   * link `key`, then the mega menu is saved.
   */
  method PlaceAndSave(m: MegaMenu, key: string, config: Config)
    requires m.Valid() && HasPluginId(config)
    modifies m`collections, m`links, m`stored, m.collections.Values
    ensures m.Valid()
    ensures m.name == old(m.name) && m.labelText == old(m.labelText) && m.menu == old(m.menu)
    ensures m.renderContentOutside == old(m.renderContentOutside)
    ensures m.links == WriteBack(old(m.links), ConfigsOf(m.collections))
    ensures forall k :: LinkLayout(m.links, k) == LinkLayout(old(m.links), k)
    ensures m.stored == Some(Export(m.name, m.labelText, m.menu, m.links, m.renderContentOutside))
    ensures m.Blocks(key) == Upserted(old(m.Blocks(key)), config["id"].s, config)
    ensures forall k :: k != key ==> m.Blocks(k) == old(m.Blocks(k))
    ensures m.stored.Some? && StoredBlocks(m.stored.value.links, key) == m.Blocks(key)
  {
    Upsert(m, key, config["id"].s, config);
    m.Save();
  }

  class BlockForm {
    /** `$this->megaMenu`, set when the form is built. */
    var megaMenu: MegaMenu?
    /** The configuration of `$this->block` as the plugin reports it. */
    var block: Config
    /** The `link` and `region` form state values. */
    var link: Option<string>
    var region: Option<string>

    constructor ()
      ensures megaMenu == null && link == None && region == None && block == map[]
    {
      megaMenu, link, region, block := null, None, None, map[];
    }

    /**
     * `buildForm`: remembers the mega menu, the request's `link` and `region`
     * and the block that `prepareBlock` produced.
     */
    method BuildForm(m: MegaMenu, query: map<string, string>, prepared: Config)
      modifies this
      ensures megaMenu == m && block == prepared
      ensures link == QueryValue(query, "link") && region == QueryValue(query, "region")
    {
      megaMenu := m;
      link := QueryValue(query, "link");
      region := QueryValue(query, "region");
      block := prepared;
    }

    /**
     * `submitForm`: `submitted` is the block's configuration once the plugin
     * has processed its settings. Returns the id of the mega menu whose edit
     * form the redirect goes to.
     */
    method SubmitForm(submitted: Config) returns (redirect: string)
      requires megaMenu != null && megaMenu.Valid()
      requires HasPluginId(submitted)
      modifies this`block, megaMenu`collections, megaMenu`links, megaMenu`stored, megaMenu.collections.Values
      ensures megaMenu.Valid()
      // Only the link's blocks change: the general values and every layout stay.
      ensures megaMenu.name == old(megaMenu.name) && megaMenu.labelText == old(megaMenu.labelText)
      ensures megaMenu.menu == old(megaMenu.menu) && megaMenu.renderContentOutside == old(megaMenu.renderContentOutside)
      ensures forall k :: LinkLayout(megaMenu.links, k) == LinkLayout(old(megaMenu.links), k)
      ensures block == submitted
      ensures redirect == megaMenu.name
      ensures var key := KeyOf(link);
              megaMenu.Blocks(key) == Upserted(old(megaMenu.Blocks(KeyOf(link))), submitted["id"].s, TaggedConfig(submitted, link, region))
      ensures forall k :: k != KeyOf(link) ==> megaMenu.Blocks(k) == old(megaMenu.Blocks(k))
      // The configuration handed to storage holds the block under the link.
      ensures megaMenu.stored.Some?
      ensures StoredBlocks(megaMenu.stored.value.links, KeyOf(link)) == megaMenu.Blocks(KeyOf(link))
      ensures submitted["id"].s in StoredBlocks(megaMenu.stored.value.links, KeyOf(link))
    {
      block := submitted;
      var config := TaggedConfig(block, link, region);
      PlaceAndSave(megaMenu, KeyOf(link), config);
      redirect := megaMenu.name;
    }
  }
}
