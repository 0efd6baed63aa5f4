# Missing-translation stubs for the Sequel bitemporal I18n backend

This is a Dafny model of the `Missing` mixin of the bitemporal Sequel I18n backend.
The mixin sits in an I18n backend chain. When a lookup misses, it stores a stub row
in the translations table for each missing key, so that translators can find the key
and fill it in later. It then gives the miss back to the caller unchanged.

The files:

- `ruby_values.dfy` (module `RubyValues`) covers the parts of Ruby the mixin uses:
  - values and truthiness (only `nil` and `false` are false, so a `:count` of `0` counts);
  - an options Hash as an ordered list of entries, read the way `values_at` reads it;
  - `Hash#keys`;
  - `Array#-`, which drops every occurrence of a removed element and keeps the order of
    the left operand.
- `missing.dfy` (module `Missing`) holds the mixin itself.
  - `Env` collects the collaborators the mixin calls but does not define. These are
    `normalize_flat_keys`, the locale's plural keys (`i18n.plural.keys`), `RESERVED_KEYS`,
    `I18n.default_separator`, `FLATTEN_SEPARATOR`, the key test of `Translation.lookup`,
    and whether `I18n::MissingTranslation` is defined.
  - `Materialized` is the specification: the list of rows one call appends.
  - `Reemit` says what `translate` gives back for each outcome of the inner engine.
  - The class `Backend` holds the translations table as a field `store`. Its methods
    `StoreDefaultTranslation`, `StoreDefaultTranslations` (a loop over the keys) and
    `Translate` change that field the way the Ruby methods change the table.
- `missing_props.dfy` (module `MissingProperties`) holds lemmas that relate two calls,
  or a call and the table it starts from:
  - a repeated miss writes nothing;
  - stubs never duplicate a stored record;
  - one call never writes the same key twice, when the locale lists each plural category once;
  - a miss keeps the table at one row per (locale, key), when lookup finds a key and the keys below it and the locale lists each plural category once;
  - which separator is used;
  - the caller cannot tell the mixin from the bare engine.

  It also checks the two worked examples: the Polish plural miss and the interpolation
  list.

The engine's outcome is the datatype `Outcome`:

- `Returned(v)`: `super` returns a value.
- `Thrown(v)`: `super` throws a value to `:exception`.
- `Raised(e)`: `super` raises an exception.

`Translate` takes this outcome as a parameter. The code differs from the plain reading
"every non-miss passes through" in two edge cases, and the model follows the code.
`catch(:exception) { super }` catches every thrown value. So a thrown value that is not
an `I18n::MissingTranslation` is *returned* by the mixin, not thrown again. And a
`MissingTranslation` that `super` returns normally is treated as a miss and *thrown*.
`ReemitIsTransparent` shows that a caller who wraps the call in `catch(:exception)`, as
`I18n.translate` and the Chain backend do, sees the same value or exception either way, as long as
every save succeeds (saves cannot fail in this model; see "## Left out").
`separator ||= I18n.default_separator` replaces a `false` separator as well as a missing
or `nil` one, and the model does the same.

## Model

| member | source | states |
|---|---|---|
| RubyValues.ValueAt | lib/i18n/backend/sequel_bitemporal/missing.rb:45 | an absent option reads as `nil`; a non-`nil` result is stored under that key; in a Hash the result is the value stored under that key |
| RubyValues.Difference | lib/i18n/backend/sequel_bitemporal/missing.rb:50 | a name is in `keys - RESERVED_KEYS` exactly when it is one of the keys and not reserved; the result is no longer than the keys |
| RubyValues.DifferenceAppend | lib/i18n/backend/sequel_bitemporal/missing.rb:50 | `Array#-` distributes over concatenation, so it keeps the order of `options.keys` |
| RubyValues.DifferenceOfNothing | lib/i18n/backend/sequel_bitemporal/missing.rb:50 | with no reserved keys, the interpolations are `options.keys` exactly |
| RubyValues.DifferenceDistinct | lib/i18n/backend/sequel_bitemporal/missing.rb:50 | removing reserved keys from a list without repeats leaves a list without repeats |
| Missing.Interpolations | lib/i18n/backend/sequel_bitemporal/missing.rb:50 | a name is recorded as an interpolation exactly when some option has that name and the name is not reserved |
| Missing.Expand | lib/i18n/backend/sequel_bitemporal/missing.rb:51 | one key per plural category, in category order, each the normalised key, `FLATTEN_SEPARATOR`, then the category |
| Missing.Stubs | lib/i18n/backend/sequel_bitemporal/missing.rb:52 | one stub row per key, in key order, each with a `nil` value and the same interpolations |
| Missing.Materialized | lib/i18n/backend/sequel_bitemporal/missing.rb:44-54 | nothing is written when a record answers the normalised key; otherwise one stub for the normalised key when `:count` is `nil`/`false`/absent, or one stub per plural category in order, keyed with `FLATTEN_SEPARATOR`, when `:count` is truthy (zero stubs for no categories); every row has the requested locale, a `nil` value and `options.keys - RESERVED_KEYS` |
| Missing.Reemit | lib/i18n/backend/sequel_bitemporal/missing.rb:63-75 | a thrown soft miss and every raised exception come back identically; a found value comes back identically; the value or exception is never altered, and it is thrown exactly when it is a miss |
| Missing.Backend.StoreDefaultTranslation | lib/i18n/backend/sequel_bitemporal/missing.rb:56-61 | exactly one row is appended: the given locale and key, a `nil` value and the given interpolations; existing rows are untouched |
| Missing.Backend.StoreDefaultTranslations | lib/i18n/backend/sequel_bitemporal/missing.rb:44-54 | the table afterwards is the old table followed by `Materialized` of the old table; the loop appends the stubs one by one in key order |
| Missing.Backend.Translate | lib/i18n/backend/sequel_bitemporal/missing.rb:63-75 | the result is `Reemit` of the engine's outcome; on a miss the stubs for the original locale, key and options are appended; on anything else the table is unchanged |
| MissingProperties.RepeatedMissWritesNothing | lib/i18n/backend/sequel_bitemporal/missing.rb:49-52 | when lookup finds a key and the keys one segment below it, a second miss with the same arguments writes nothing |
| MissingProperties.StubsNeverDuplicateStoredRecords | lib/i18n/backend/sequel_bitemporal/missing.rb:49-52 | under the same lookup, no stub shares locale and key with a row already stored |
| MissingProperties.ExpandedKeysDistinct | lib/i18n/backend/sequel_bitemporal/missing.rb:51 | distinct plural categories give distinct stub keys |
| MissingProperties.MaterializedKeysDistinct | lib/i18n/backend/sequel_bitemporal/missing.rb:49-52 | when the locale lists each plural category once, no two stubs written by one call share a key |
| MissingProperties.MissKeepsRowsUnique | lib/i18n/backend/sequel_bitemporal/missing.rb:49-52 | a table with at most one row per (locale, key) keeps that after a miss, when lookup finds a key and the keys below it and the categories are distinct |
| MissingProperties.InterpolationsDistinct | lib/i18n/backend/sequel_bitemporal/missing.rb:50 | the interpolation list of an options Hash names each parameter once |
| MissingProperties.AbsentSeparatorUsesDefault | lib/i18n/backend/sequel_bitemporal/missing.rb:45-47 | with no truthy `:separator` option, the key is normalised with `I18n.default_separator` |
| MissingProperties.GivenSeparatorIsUsed | lib/i18n/backend/sequel_bitemporal/missing.rb:45-47 | a truthy `:separator` option is the separator the key is normalised with |
| MissingProperties.ReemitIsTransparent | lib/i18n/backend/sequel_bitemporal/missing.rb:63-75 | a caller that catches `:exception` sees the same value or exception as it would from the bare engine |
| MissingProperties.InterpolationScenario | lib/i18n/backend/sequel_bitemporal/missing.rb:50 | options `{count: 3, scope: "home", name: "Ann"}` with reserved keys count, scope, locale and default record the interpolations `["name"]` |

## Left out

- The Sequel and bitemporal persistence (`Translation.new`, `attributes=`, `save`, versioning) is modelled by the `store` field only: a saved row is appended, and storage errors are not modelled, so no write fails.
- Missing.Backend.Translate: a `save` that raises (missing.rb:60) would end `translate` with the storage exception instead of the miss, with the stubs saved before it left in the table. Saves cannot fail in the model, so the contract promises the engine's outcome only when every save succeeds.
- MissingProperties.ReemitIsTransparent: the caller sees the engine's own value or exception only when every save succeeds, because a storage exception raised at missing.rb:60 would take the place of the miss.
- `Translation.locale(locale).lookup(key)` is not part of this model. The locale filter is modelled, but the key test is the parameter `keyMatches`. The repeated-miss and no-duplicate lemmas assume that lookup finds a key and the keys one `FLATTEN_SEPARATOR` segment below it.
- `normalize_flat_keys` and `FLATTEN_SEPARATOR` come from the Flatten module, which is not part of this model. They are parameters.
- `I18n.t('i18n.plural.keys', ...)` is a parameter from locale to category list. The model does not cover that this lookup itself runs through the backend chain, nor what happens when it returns something without `map`.
- The choice between `I18n::RESERVED_KEYS` and `I18n::Backend::Base::RESERVED_KEYS` (missing.rb:38-42) is left out. The reserved list is a parameter. No general lemma assumes what it contains; the two scenarios fix the reserved keys they name.
- `I18n.const_defined?(:MissingTranslation)` is a boolean parameter.
- Ruby's `catch`/`throw`/`rescue` are replaced by the `Outcome` datatype. The call to `super` is replaced by its outcome, given as a parameter.
- Locales are Symbols identified by their names, so `locale.to_s` is the locale itself.
- Concurrency is left out. The code checks and then writes without locking, and runs one call at a time in the model.
