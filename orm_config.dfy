/**
  What the Sequel and DataMapper connection shims share: picking the
  current environment's section out of the parsed `database.yml`,
  copying it into a fresh hash with every key turned into a symbol, and
  installing that hash in the framework's global plugin-configuration
  table under the plugin's own name.
 */
module OrmConfig {
  import opened RubyValues

  /** A Ruby `Hash` object; its identity matters because it is shared. */
  class Hash {
    var entries: map<Key, Value>

    constructor ()
      ensures entries == map[]
    {
      entries := map[];
    }
  }

  /** The process-wide `Merb::Plugins.config` table: plugin name to its hash. */
  class PluginConfig {
    var table: map<Key, Hash>

    constructor ()
      ensures table == map[]
    {
      table := map[];
    }
  }

  /** Why evaluating `config` raises instead of returning a hash. */
  datatype ConfigError =
    | NoSection        // neither `full[env.to_sym]` nor `full[env]` is truthy: `each` on `nil`/`false`
    | SectionNotHash   // the section is a scalar, which has no hash-style `each`

  /**
    `full_config[MERB_ENV.to_sym] || full_config[MERB_ENV]`, followed by the
    requirement that the chosen object can be iterated as a hash.
   */
  function SelectSection(full: map<Key, Value>, env: string): (r: Result<seq<(Key, Value)>, ConfigError>)
    // the symbol key wins whenever its value is truthy
    ensures Truthy(Fetch(full, Sym(env))) ==>
      (r.Ok? <==> full[Sym(env)].Table?) &&
      (r.Ok? ==> r.value == full[Sym(env)].entries) &&
      (r.Err? ==> r.error == SectionNotHash)
    // the string key is the fallback
    ensures !Truthy(Fetch(full, Sym(env))) && Truthy(Fetch(full, Str(env))) ==>
      (r.Ok? <==> full[Str(env)].Table?) &&
      (r.Ok? ==> r.value == full[Str(env)].entries) &&
      (r.Err? ==> r.error == SectionNotHash)
    // with neither, there is nothing to iterate
    ensures !Truthy(Fetch(full, Sym(env))) && !Truthy(Fetch(full, Str(env))) ==> r == Err(NoSection)
  {
    var section := Or(Fetch(full, Sym(env)), Fetch(full, Str(env)));
    if !Truthy(section) then Err(NoSection)
    else if section.Table? then Ok(section.entries)
    else Err(SectionNotHash)
  }

  /**
    The hash that `each { |k, v| config[k.to_sym] = v }` leaves behind after
    visiting `entries` in order, starting from an empty hash.
   */
  function Symbolize(entries: seq<(Key, Value)>): map<Key, Value>
  {
    if entries == [] then map[]
    else
      var last := entries[|entries| - 1];
      Symbolize(entries[..|entries| - 1])[ToSym(last.0) := last.1]
  }

  /** Entry `i` is the last one whose key symbolises to the same name. */
  predicate LastWithName(entries: seq<(Key, Value)>, i: int)
    requires 0 <= i < |entries|
  {
    forall j :: i < j < |entries| ==> ToSym(entries[j].0) != ToSym(entries[i].0)
  }

  /** The result's keys are exactly the symbolised section keys. */
  lemma {:induction false} SymbolizeKeys(entries: seq<(Key, Value)>)
    ensures Symbolize(entries).Keys == set i | 0 <= i < |entries| :: ToSym(entries[i].0)
    ensures forall k :: k in Symbolize(entries) ==> k.Sym?
  {
    if entries != [] {
      var n := |entries| - 1;
      SymbolizeKeys(entries[..n]);
      var front := set i | 0 <= i < n :: ToSym(entries[..n][i].0);
      var all := set i | 0 <= i < |entries| :: ToSym(entries[i].0);
      assert front == set i | 0 <= i < n :: ToSym(entries[i].0);
      assert all == front + {ToSym(entries[n].0)};
    }
  }

  /**
    Values are copied unchanged; where two keys symbolise to the same name,
    the entry visited last wins.
   */
  lemma {:induction false} SymbolizeLastWins(entries: seq<(Key, Value)>, i: int)
    requires 0 <= i < |entries| && LastWithName(entries, i)
    ensures ToSym(entries[i].0) in Symbolize(entries)
    ensures Symbolize(entries)[ToSym(entries[i].0)] == entries[i].1
  {
    var n := |entries| - 1;
    if i < n {
      assert ToSym(entries[n].0) != ToSym(entries[i].0);
      assert LastWithName(entries[..n], i) by {
        forall j | i < j < n ensures ToSym(entries[..n][j].0) != ToSym(entries[..n][i].0) {
          assert entries[..n][j] == entries[j];
        }
      }
      SymbolizeLastWins(entries[..n], i);
    }
  }

  /** When no two keys share a name, every entry `(k, v)` appears as `(k.to_sym, v)`. */
  lemma SymbolizeDistinct(entries: seq<(Key, Value)>)
    requires forall i, j :: 0 <= i < j < |entries| ==> ToSym(entries[i].0) != ToSym(entries[j].0)
    ensures forall i :: 0 <= i < |entries| ==>
      ToSym(entries[i].0) in Symbolize(entries) && Symbolize(entries)[ToSym(entries[i].0)] == entries[i].1
    ensures |Symbolize(entries)| == |entries|
  {
    forall i | 0 <= i < |entries|
      ensures ToSym(entries[i].0) in Symbolize(entries) && Symbolize(entries)[ToSym(entries[i].0)] == entries[i].1
    {
      SymbolizeLastWins(entries, i);
    }
    SymbolizeSize(entries);
  }

  lemma {:induction false} SymbolizeSize(entries: seq<(Key, Value)>)
    requires forall i, j :: 0 <= i < j < |entries| ==> ToSym(entries[i].0) != ToSym(entries[j].0)
    ensures |Symbolize(entries)| == |entries|
  {
    if entries != [] {
      var n := |entries| - 1;
      SymbolizeSize(entries[..n]);
      SymbolizeKeys(entries[..n]);
      assert forall i :: 0 <= i < n ==> ToSym(entries[..n][i].0) != ToSym(entries[n].0);
      assert ToSym(entries[n].0) !in Symbolize(entries[..n]);
    }
  }

  /**
    The body of `config` once the memo is empty: a fresh hash is installed as
    `plugins.table[name]` first, then the chosen section is copied into it
    key by key. When no section can be chosen, the fresh hash stays empty
    in the table and the error propagates.
   */
  method LoadConfig(plugins: PluginConfig, name: Key, full: map<Key, Value>, env: string)
    returns (r: Result<Hash, ConfigError>)
    modifies plugins
    ensures name in plugins.table && fresh(plugins.table[name])
    ensures plugins.table == old(plugins.table)[name := plugins.table[name]]
    ensures SelectSection(full, env).Ok? ==>
      r == Ok(plugins.table[name]) && r.value.entries == Symbolize(SelectSection(full, env).value)
    ensures SelectSection(full, env).Err? ==>
      r == Err(SelectSection(full, env).error) && plugins.table[name].entries == map[]
  {
    var config := new Hash();
    plugins.table := plugins.table[name := config];
    var section := SelectSection(full, env);
    if section.Err? {
      return Err(section.error);
    }
    var entries := section.value;
    var i := 0;
    while i < |entries|
      invariant 0 <= i <= |entries|
      invariant config.entries == Symbolize(entries[..i])
      invariant plugins.table == old(plugins.table)[name := config]
    {
      assert entries[..i + 1][..i] == entries[..i];
      config.entries := config.entries[ToSym(entries[i].0) := entries[i].1];
      i := i + 1;
    }
    assert entries[..i] == entries;
    r := Ok(config);
  }
}
