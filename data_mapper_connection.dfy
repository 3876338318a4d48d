/**
  The DataMapper connection shim: the memoised `config` reader, which
  installs its hash as the `:merb_data_mapper` plugin configuration.
 */
module DataMapperConnection {
  import opened RubyValues
  import opened OrmConfig

  const PluginName: Key := Sym("merb_data_mapper")

  /** `Merb::Orms::DataMapper`: `@config` and the global plugin table it writes. */
  class DataMapper {
    /** `@config`: `None` until a call succeeds. */
    var cache: Option<Hash>
    /** `Merb::Plugins.config`, shared with every other plugin. */
    const plugins: PluginConfig

    constructor (plugins: PluginConfig)
      ensures cache == None && this.plugins == plugins
    {
      cache := None;
      this.plugins := plugins;
    }

    /**
      `config`: `@config ||= begin … end`. A cached hash is returned as it is,
      without reading `full` (the contents of `database.yml`; `env` is the
      value of `MERB_ENV`) and without touching the plugin table. Otherwise
      the section is loaded into a fresh hash that becomes both
      `plugins.table[:merb_data_mapper]` and the cache, and every other
      plugin's entry is left as it was; on an error the cache stays empty,
      so a later call tries again.
     */
    method Config(full: map<Key, Value>, env: string) returns (r: Result<Hash, ConfigError>)
      modifies this, plugins
      ensures old(cache).Some? ==>
        r == Ok(old(cache).value) && cache == old(cache) && plugins.table == old(plugins.table)
      ensures old(cache).None? ==>
        PluginName in plugins.table && fresh(plugins.table[PluginName]) &&
        plugins.table == old(plugins.table)[PluginName := plugins.table[PluginName]]
      ensures old(cache).None? && SelectSection(full, env).Ok? ==>
        r == Ok(plugins.table[PluginName]) && cache == Some(r.value) &&
        r.value.entries == Symbolize(SelectSection(full, env).value)
      ensures old(cache).None? && SelectSection(full, env).Err? ==>
        r == Err(SelectSection(full, env).error) && cache == None &&
        plugins.table[PluginName].entries == map[]
    {
      if cache.Some? {
        return Ok(cache.value);
      }
      r := LoadConfig(plugins, PluginName, full, env);
      if r.Ok? {
        cache := Some(r.value);
      }
    }
  }

  /**
    Two calls in a row: the second returns the very hash the first returned,
    that hash is still the plugin entry, and its contents are unchanged,
    whatever `database.yml` holds by then.
   */
  method ConfigTwice(plugins: PluginConfig, full: map<Key, Value>, later: map<Key, Value>, env: string)
    returns (first: Result<Hash, ConfigError>, second: Result<Hash, ConfigError>)
    modifies plugins
    ensures first.Ok? <==> SelectSection(full, env).Ok?
    ensures first.Ok? ==> first.value.entries == Symbolize(SelectSection(full, env).value)
    ensures first.Ok? ==> second == first && PluginName in plugins.table && plugins.table[PluginName] == first.value
  {
    var orm := new DataMapper(plugins);
    first := orm.Config(full, env);
    second := orm.Config(later, env);
  }
}
