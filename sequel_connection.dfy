/**
  The Sequel connection shim: the memoised `config` reader, which installs
  its hash as the `:merb_sequel` plugin configuration, and `config_options`,
  which turns that configuration into the options handed to `Sequel.connect`.
 */
module SequelConnection {
  import opened RubyValues
  import opened OrmConfig

  const PluginName: Key := Sym("merb_sequel")

  /** The option names `config_options` can produce. */
  const OptionNames: set<Key> :=
    {Sym("adapter"), Sym("host"), Sym("user"), Sym("password"),
     Sym("encoding"), Sym("database"), Sym("logger")}

  /** The configuration entries `config_options` looks at. */
  const ReadNames: set<Key> :=
    {Sym("adapter"), Sym("host"), Sym("username"), Sym("user"), Sym("password"),
     Sym("encoding"), Sym("charset"), Sym("database")}

  /**
    `config_options`: defaults for adapter, host and user, the `username`
    then `user` and `encoding` then `charset` fallbacks, the optional
    password, encoding and database, and the framework logger.
   */
  function ConfigOptions(config: map<Key, Value>): (r: map<Key, Value>)
    ensures Sym("adapter") in r && Sym("host") in r && Sym("user") in r
    ensures Sym("logger") in r && r[Sym("logger")] == Logger
    ensures r.Keys <= OptionNames
    ensures forall k :: k in r ==> Truthy(r[k])
  {
    var options := map[
      Sym("adapter") := Or(Fetch(config, Sym("adapter")), Text("sqlite")),
      Sym("host") := Or(Fetch(config, Sym("host")), Text("localhost")),
      Sym("user") := Or(Or(Fetch(config, Sym("username")), Fetch(config, Sym("user"))), Text("root"))];
    assert WellFormed(options);
    var options := if Truthy(Fetch(config, Sym("password")))
      then options[Sym("password") := Fetch(config, Sym("password"))] else options;
    assert WellFormed(options);
    var options := if Truthy(Or(Fetch(config, Sym("encoding")), Fetch(config, Sym("charset"))))
      then options[Sym("encoding") := Or(Fetch(config, Sym("encoding")), Fetch(config, Sym("charset")))]
      else options;
    assert WellFormed(options);
    var options := if Truthy(Fetch(config, Sym("database")))
      then options[Sym("database") := Fetch(config, Sym("database"))] else options;
    assert WellFormed(options);
    options[Sym("logger") := Logger]
  }

  /** Only option names, each with a truthy value. */
  ghost predicate WellFormed(options: map<Key, Value>)
  {
    options.Keys <= OptionNames && forall k :: k in options ==> Truthy(options[k])
  }

  /** Adapter and host: the configured value when truthy, else the default. */
  lemma ConfigOptionsAdapterHost(config: map<Key, Value>)
    ensures Truthy(Fetch(config, Sym("adapter"))) ==> ConfigOptions(config)[Sym("adapter")] == config[Sym("adapter")]
    ensures !Truthy(Fetch(config, Sym("adapter"))) ==> ConfigOptions(config)[Sym("adapter")] == Text("sqlite")
    ensures Truthy(Fetch(config, Sym("host"))) ==> ConfigOptions(config)[Sym("host")] == config[Sym("host")]
    ensures !Truthy(Fetch(config, Sym("host"))) ==> ConfigOptions(config)[Sym("host")] == Text("localhost")
  {
  }

  /** User: `username` wins over `user`, and `"root"` when neither is set. */
  lemma ConfigOptionsUser(config: map<Key, Value>)
    ensures Truthy(Fetch(config, Sym("username"))) ==> ConfigOptions(config)[Sym("user")] == config[Sym("username")]
    ensures !Truthy(Fetch(config, Sym("username"))) && Truthy(Fetch(config, Sym("user"))) ==>
      ConfigOptions(config)[Sym("user")] == config[Sym("user")]
    ensures !Truthy(Fetch(config, Sym("username"))) && !Truthy(Fetch(config, Sym("user"))) ==>
      ConfigOptions(config)[Sym("user")] == Text("root")
  {
  }

  /** Password and database: present exactly when configured truthy, and then copied. */
  lemma ConfigOptionsOptional(config: map<Key, Value>)
    ensures Sym("password") in ConfigOptions(config) <==> Truthy(Fetch(config, Sym("password")))
    ensures Sym("password") in ConfigOptions(config) ==> ConfigOptions(config)[Sym("password")] == config[Sym("password")]
    ensures Sym("database") in ConfigOptions(config) <==> Truthy(Fetch(config, Sym("database")))
    ensures Sym("database") in ConfigOptions(config) ==> ConfigOptions(config)[Sym("database")] == config[Sym("database")]
  {
  }

  /** Encoding: present when `encoding` or `charset` is set; `encoding` wins. */
  lemma ConfigOptionsEncoding(config: map<Key, Value>)
    ensures Sym("encoding") in ConfigOptions(config) <==>
      Truthy(Fetch(config, Sym("encoding"))) || Truthy(Fetch(config, Sym("charset")))
    ensures Truthy(Fetch(config, Sym("encoding"))) ==> ConfigOptions(config)[Sym("encoding")] == config[Sym("encoding")]
    ensures !Truthy(Fetch(config, Sym("encoding"))) && Truthy(Fetch(config, Sym("charset"))) ==>
      ConfigOptions(config)[Sym("encoding")] == config[Sym("charset")]
  {
  }

  /** Called with no argument (`config = {}`), only the defaults and the logger remain. */
  lemma ConfigOptionsDefaults()
    ensures ConfigOptions(map[]) ==
      map[Sym("adapter") := Text("sqlite"), Sym("host") := Text("localhost"),
          Sym("user") := Text("root"), Sym("logger") := Logger]
  {
  }

  /**
    Only the entries in `ReadNames` matter: keys such as `:port`, string keys
    and everything else in the configuration are dropped.
   */
  lemma ConfigOptionsReadsOnly(c1: map<Key, Value>, c2: map<Key, Value>)
    requires forall k :: k in ReadNames ==> Fetch(c1, k) == Fetch(c2, k)
    ensures ConfigOptions(c1) == ConfigOptions(c2)
  {
  }

  /** Normalising the options a second time changes nothing. */
  lemma ConfigOptionsIdempotent(config: map<Key, Value>)
    ensures ConfigOptions(ConfigOptions(config)) == ConfigOptions(config)
  {
    var r := ConfigOptions(config);
    var r2 := ConfigOptions(r);
    assert Sym("username") !in r && Sym("charset") !in r;
    ConfigOptionsAdapterHost(r);
    ConfigOptionsUser(r);
    ConfigOptionsOptional(r);
    ConfigOptionsEncoding(r);
    assert r2.Keys == r.Keys by {
      ConfigOptionsOptional(config);
      ConfigOptionsEncoding(config);
    }
    forall k | k in r ensures r2[k] == r[k] {
      assert k in OptionNames;
    }
  }

  /**
    What `connect` hands to Sequel as the adapter: the section entry named
    `adapter`, whether its key was written as a symbol or a string, provided it
    is the last entry with that name and is truthy.
   */
  lemma ConnectAdapter(entries: seq<(Key, Value)>, i: int)
    requires 0 <= i < |entries| && entries[i].0.name == "adapter"
    requires LastWithName(entries, i) && Truthy(entries[i].1)
    ensures ConfigOptions(Symbolize(entries))[Sym("adapter")] == entries[i].1
  {
    SymbolizeLastWins(entries, i);
    ConfigOptionsAdapterHost(Symbolize(entries));
  }

  /** `Merb::Orms::Sequel`: `@config` and the global plugin table it writes. */
  class Sequel {
    /** `@config`: `None` until a call succeeds. */
    var cache: Option<Hash>
    /** `Merb::Plugins.config`, shared with every other plugin. */
    const plugins: PluginConfig

    constructor (plugins: PluginConfig)
      ensures cache == None && this.plugins == plugins
    {
      cache := None;
      this.plugins := plugins;
    }

    /**
      `config`: `@config ||= begin … end`. A cached hash is returned as it is,
      without reading `full` (the contents of `database.yml` for `env`, the
      value of `MERB_ENV`) and without touching the plugin table. Otherwise
      the section is loaded into a fresh hash that becomes both
      `plugins.table[:merb_sequel]` and the cache; on an error the cache stays
      empty, so a later call tries again.
     */
    method Config(full: map<Key, Value>, env: string) returns (r: Result<Hash, ConfigError>)
      modifies this, plugins
      ensures old(cache).Some? ==>
        r == Ok(old(cache).value) && cache == old(cache) && plugins.table == old(plugins.table)
      ensures old(cache).None? ==>
        PluginName in plugins.table && fresh(plugins.table[PluginName]) &&
        plugins.table == old(plugins.table)[PluginName := plugins.table[PluginName]]
      ensures old(cache).None? && SelectSection(full, env).Ok? ==>
        r == Ok(plugins.table[PluginName]) && cache == Some(r.value) &&
        r.value.entries == Symbolize(SelectSection(full, env).value)
      ensures old(cache).None? && SelectSection(full, env).Err? ==>
        r == Err(SelectSection(full, env).error) && cache == None &&
        plugins.table[PluginName].entries == map[]
    {
      if cache.Some? {
        return Ok(cache.value);
      }
      r := LoadConfig(plugins, PluginName, full, env);
      if r.Ok? {
        cache := Some(r.value);
      }
    }
  }
}
