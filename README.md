# Merb ORM connection shims, modelled in Dafny

This project models the configuration logic of two Merb plugins: the Sequel
and DataMapper connection shims. Each shim reads `config/database.yml`. It
picks the section for the current `MERB_ENV` and copies it into a fresh hash
with symbol keys. It installs that hash in the global `Merb::Plugins.config`
table under its own plugin name and memoises it in `@config`. The Sequel shim
also normalises that configuration into the options passed to
`Sequel.connect`: it applies defaults and fallbacks, copies the optional
entries and attaches the logger.

Files:

- `ruby_values.dfy` (module `RubyValues`): hash keys (`Sym`/`Str`), the
  values a parsed configuration holds, Ruby truthiness (only `nil` and
  `false` are falsy), `||` and `Hash#[]`.
- `orm_config.dfy` (module `OrmConfig`): the `Hash` and `PluginConfig`
  objects, environment-section selection, the key-symbolising copy loop and
  its specification `Symbolize`, shared by both shims.
- `sequel_connection.dfy` (module `SequelConnection`): `config_options` and
  the memoised `config` of the Sequel shim.
- `data_mapper_connection.dfy` (module `DataMapperConnection`): the memoised
  `config` of the DataMapper shim.

Modelling choices:

- A Ruby hash that is only looked up is a `map<Key, Value>`. A hash that is
  iterated (a YAML section) is `Table(entries)`, its entries in iteration
  order. That order decides which entry wins when two keys symbolise to the
  same name.
- The hash built by `config` is an object (`OrmConfig.Hash`). "The cached
  hash is the plugin-config entry" is therefore reference equality, as in
  Ruby.
- `@config` is the field `cache: Option<Hash>`. `Merb::Plugins.config` is a
  `PluginConfig` object shared by reference.
- Reading `database.yml` is I/O. Its parsed contents are the parameter
  `full`, and `MERB_ENV` is the parameter `env`.
- A failed `config` call raises in Ruby. Here it returns `Err`. When the
  section lookup fails, the plugin entry has already been replaced by an
  empty hash, because the assignment comes before the lookup in the source.

## Model

| member | source | states |
|---|---|---|
| `RubyValues.Or` | merb_sequel/lib/merb/orms/sequel/connection.rb:44-49 | `a \|\| b` is truthy exactly when one of its operands is |
| `OrmConfig.SelectSection` | merb_sequel/lib/merb/orms/sequel/connection.rb:21 | the section under the symbol form of the environment name is used when truthy; otherwise the one under the string form; with neither the result is `NoSection`, and a scalar section is `SectionNotHash` (same expression at merb_data_mapper connection.rb:22) |
| `OrmConfig.SymbolizeKeys` | merb_sequel/lib/merb/orms/sequel/connection.rb:21 | the copied hash's keys are exactly the symbolised section keys, all of them symbols |
| `OrmConfig.SymbolizeLastWins` | merb_sequel/lib/merb/orms/sequel/connection.rb:21 | values are copied unchanged, and of several keys with the same name the one iterated last wins |
| `OrmConfig.SymbolizeDistinct` | merb_data_mapper/lib/merb/orms/data_mapper/connection.rb:22 | when no two keys share a name, each entry `(k, v)` appears as `(k.to_sym, v)` and the copy has as many keys as the section |
| `OrmConfig.SymbolizeSize` | merb_data_mapper/lib/merb/orms/data_mapper/connection.rb:22 | with distinct names, no entry of the section is lost in the copy |
| `OrmConfig.LoadConfig` | merb_sequel/lib/merb/orms/sequel/connection.rb:19-22 | a fresh hash replaces the plugin's entry and no other entry; on success it holds `Symbolize` of the chosen section and is returned; on failure it stays empty and the error is returned |
| `SequelConnection.ConfigOptions` | merb_sequel/lib/merb/orms/sequel/connection.rb:42-54 | adapter, host, user and logger are always present, the logger is the framework logger, every key is one of the seven option names, and every value is truthy |
| `SequelConnection.ConfigOptionsAdapterHost` | merb_sequel/lib/merb/orms/sequel/connection.rb:44-45 | adapter and host are the configured values when truthy, else `"sqlite"` and `"localhost"` |
| `SequelConnection.ConfigOptionsUser` | merb_sequel/lib/merb/orms/sequel/connection.rb:46 | user is `username` when truthy, else `user` when truthy, else `"root"` |
| `SequelConnection.ConfigOptionsOptional` | merb_sequel/lib/merb/orms/sequel/connection.rb:47-51 | password and database are present exactly when configured truthy, and then equal the configured value |
| `SequelConnection.ConfigOptionsEncoding` | merb_sequel/lib/merb/orms/sequel/connection.rb:48-50 | encoding is present exactly when `encoding` or `charset` is truthy; `encoding` wins over `charset` |
| `SequelConnection.ConfigOptionsDefaults` | merb_sequel/lib/merb/orms/sequel/connection.rb:42-53 | with the default empty argument the options are exactly the three defaults and the logger |
| `SequelConnection.ConfigOptionsReadsOnly` | merb_sequel/lib/merb/orms/sequel/connection.rb:43-53 | the options depend only on the eight entries read, so `:port`, string keys and all other entries are dropped |
| `SequelConnection.ConfigOptionsIdempotent` | merb_sequel/lib/merb/orms/sequel/connection.rb:42-54 | normalising the options a second time gives the same options |
| `SequelConnection.ConnectAdapter` | merb_sequel/lib/merb/orms/sequel/connection.rb:32 | through `config` and `config_options`, the adapter is the value of the last section entry named `adapter`, symbol or string key, when that value is truthy |
| `SequelConnection.Sequel.Config` | merb_sequel/lib/merb/orms/sequel/connection.rb:15-24 | once cached, returns the cached hash and leaves the plugin table alone; otherwise a fresh hash becomes `:merb_sequel`, other entries untouched, and on success it is the cache and holds the symbolised section; on error the cache stays empty |
| `DataMapperConnection.DataMapper.Config` | merb_data_mapper/lib/merb/orms/data_mapper/connection.rb:16-25 | the same contract as the Sequel shim's, with the plugin entry `:merb_data_mapper` |
| `DataMapperConnection.ConfigTwice` | merb_data_mapper/lib/merb/orms/data_mapper/connection.rb:17 | a second call returns the very hash of the first and it is still the plugin entry, whatever the configuration file holds by then |

## Left out

- `connect` in both shims: it checks that a file exists, prints, exits the process and calls `::Sequel.connect` or `::DataMapper::Database.setup`. Line 33 of the Sequel shim also refers to an undefined `e`.
- `copy_sample_config`, `config_file`, `sample_dest` and `sample_source`: file paths and a file copy.
- `register_session_type` in both shims: a call into `Merb::Server`.
- Erubis/YAML loading: the parsed file is the parameter `full`.
- `OrmConfig.SelectSection`: a truthy section that is not a hash fails with `SectionNotHash`. Under Ruby 1.8 a string section would instead be iterated line by line. `"".to_sym` raising under Ruby 1.8 is not modelled either.
- `OrmConfig.SelectSection`: YAML sequence sections are not modelled, because `Value` has no array variant. In Ruby, `Array#each { |k, v| … }` iterates such a section: an element `[adapter, mysql]` gives `:adapter => "mysql"`, and a bare element `adapter` gives `:adapter => nil`.
- Failures while loading the file (a missing `database.yml`, an ERB or YAML error) are not modelled. In the source these raise at line 19, before line 20 replaces the plugin entry, so the entry stays untouched. `LoadConfig` always replaces it.
- `SequelConnection.ConfigOptions`: the framework logger `MERB_LOGGER` is assumed to be set. It is the constant `Logger`, and "every value is truthy" relies on that.
- The iteration order of the hash that `config` returns: it is a `map`, and only its lookups are modelled.
- Keys other than symbols and strings (YAML integer keys, say) are not modelled.
- The ActiveRecord database rake tasks, the Sequel rake tasks and the merb_helpers specs: these are shell commands, ORM library calls, and number formatting whose implementation is not part of this model.
