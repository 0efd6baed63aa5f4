/** Properties of the Missing mixin that relate several calls, or a call and the store it starts from. */
module MissingProperties {
  import opened RubyValues
  import opened Missing

  /** What the lookup of the translations table does for the key it is given: a record
      answers its own key, and a key one FLATTEN_SEPARATOR-segment below it. */
  ghost predicate LookupFindsKeyAndChildren(env: Env) {
    (forall k :: env.keyMatches(k, k)) &&
    (forall k, c :: env.keyMatches(k + env.flattenSeparator + c, k))
  }

  /** A repeated miss for the same locale, key and options writes nothing: the stubs of the
      first miss answer the second lookup. When the first miss wrote nothing, the second
      finds the same store and the same (empty) list of keys. */
  lemma {:induction false} RepeatedMissWritesNothing(env: Env, store: seq<Translation>, locale: Sym, key: Value, options: Options)
    requires LookupFindsKeyAndChildren(env)
    ensures var after := store + Materialized(env, store, locale, key, options);
            Materialized(env, after, locale, key, options) == []
  {
    var normalized := NormalizedKey(env, locale, key, options);
    var written := Materialized(env, store, locale, key, options);
    var after := store + written;
    if Exists(env, store, locale, normalized) {
      var t :| t in store && t.locale == locale && env.keyMatches(t.key, normalized);
      assert t in after;
    } else if |written| > 0 {
      var t := written[0];
      assert t in after;
      if Truthy(ValueAt(options, "count")) {
        assert t.key == normalized + env.flattenSeparator + env.pluralKeys(locale)[0];
        assert env.keyMatches(t.key, normalized);
      } else {
        assert env.keyMatches(t.key, normalized);
      }
    } else {
      assert after == store;
    }
  }

  /** The stubs of one call never share locale and key with a record already stored: the
      table stays free of a second live record for a (locale, key) pair. */
  lemma {:induction false} StubsNeverDuplicateStoredRecords(env: Env, store: seq<Translation>, locale: Sym, key: Value, options: Options)
    requires LookupFindsKeyAndChildren(env)
    ensures forall t, s :: t in store && s in Materialized(env, store, locale, key, options) ==>
              t.locale != s.locale || t.key != s.key
  {
    var normalized := NormalizedKey(env, locale, key, options);
    var written := Materialized(env, store, locale, key, options);
    forall t, s | t in store && s in written ensures t.locale != s.locale || t.key != s.key {
      var i :| 0 <= i < |written| && written[i] == s;
      if t.locale == s.locale && t.key == s.key {
        assert false;
      }
    }
  }

  /** `(p + a)[|p|..] == a`: a common prefix cancels. */
  lemma PrefixCancels(p: string, a: string, b: string)
    requires p + a == p + b
    ensures a == b
  {
    assert a == (p + a)[|p|..];
    assert b == (p + b)[|p|..];
  }

  /** Distinct plural categories give distinct stub keys, so one call writes no key twice. */
  lemma {:induction false} ExpandedKeysDistinct(key: Sym, categories: seq<Sym>, separator: string)
    requires Distinct(categories)
    ensures Distinct(Expand(key, categories, separator))
  {
    var keys := Expand(key, categories, separator);
    forall i, j | 0 <= i < j < |keys| ensures keys[i] != keys[j] {
      if keys[i] == keys[j] {
        PrefixCancels(key + separator, categories[i], categories[j]);
        assert false;
      }
    }
  }

  /** Every key stubbed by one call is stubbed once, provided the locale lists each plural
      category once (`[:one, :one]` would stub `key.one` twice). */
  lemma {:induction false} MaterializedKeysDistinct(env: Env, store: seq<Translation>, locale: Sym, key: Value, options: Options)
    requires Distinct(env.pluralKeys(locale))
    ensures var written := Materialized(env, store, locale, key, options);
            forall i, j :: 0 <= i < j < |written| ==> written[i].key != written[j].key
  {
    var normalized := NormalizedKey(env, locale, key, options);
    var written := Materialized(env, store, locale, key, options);
    if !Exists(env, store, locale, normalized) && Truthy(ValueAt(options, "count")) {
      var categories := env.pluralKeys(locale);
      ExpandedKeysDistinct(normalized, categories, env.flattenSeparator);
      var keys := Expand(normalized, categories, env.flattenSeparator);
      forall i, j | 0 <= i < j < |written| ensures written[i].key != written[j].key {
        assert written[i] == Stub(locale, normalized + env.flattenSeparator + categories[i], Interpolations(env, options));
        assert written[j] == Stub(locale, normalized + env.flattenSeparator + categories[j], Interpolations(env, options));
        assert written[i].key == keys[i] && written[j].key == keys[j];
      }
    }
  }

  /** At most one row of the table per (locale, key) pair. */
  ghost predicate UniqueRows(store: seq<Translation>) {
    forall i, j :: 0 <= i < j < |store| ==> store[i].locale != store[j].locale || store[i].key != store[j].key
  }

  /** A miss keeps the table free of a second row for a (locale, key) pair, when lookup finds
      a key and the keys below it and the locale lists each plural category once. */
  lemma {:induction false} MissKeepsRowsUnique(env: Env, store: seq<Translation>, locale: Sym, key: Value, options: Options)
    requires LookupFindsKeyAndChildren(env)
    requires Distinct(env.pluralKeys(locale))
    requires UniqueRows(store)
    ensures UniqueRows(store + Materialized(env, store, locale, key, options))
  {
    var written := Materialized(env, store, locale, key, options);
    var after := store + written;
    StubsNeverDuplicateStoredRecords(env, store, locale, key, options);
    MaterializedKeysDistinct(env, store, locale, key, options);
    forall i, j | 0 <= i < j < |after| ensures after[i].locale != after[j].locale || after[i].key != after[j].key {
      if j < |store| {
        assert after[i] == store[i] && after[j] == store[j];
      } else if i < |store| {
        assert after[i] == store[i] && after[j] == written[j - |store|];
        assert written[j - |store|] in written;
      } else {
        assert after[i] == written[i - |store|] && after[j] == written[j - |store|];
      }
    }
  }

  /** An options Hash records each interpolation name once. */
  lemma InterpolationsDistinct(env: Env, options: Options)
    requires IsHash(options)
    ensures Distinct(Interpolations(env, options))
  {
    assert Distinct(Keys(options));
    DifferenceDistinct(Keys(options), env.reservedKeys);
  }

  /** With no `:separator` option (or a `nil`/`false` one) the key is normalised with
      `I18n.default_separator`. */
  lemma AbsentSeparatorUsesDefault(env: Env, locale: Sym, key: Value, options: Options)
    requires forall i :: 0 <= i < |options| ==> options[i].key != "separator" || !Truthy(options[i].value)
    ensures NormalizedKey(env, locale, key, options) ==
            env.normalizeFlatKeys(locale, key, ValueAt(options, "scope"), env.defaultSeparator)
  {
    var separator := ValueAt(options, "separator");
    if Truthy(separator) {
      assert false;
    }
  }

  /** A `:separator` option that is neither `nil` nor `false` is the one the key is normalised with. */
  lemma GivenSeparatorIsUsed(env: Env, locale: Sym, key: Value, options: Options, separator: Value)
    requires IsHash(options) && Entry("separator", separator) in options && Truthy(separator)
    ensures NormalizedKey(env, locale, key, options) ==
            env.normalizeFlatKeys(locale, key, ValueAt(options, "scope"), separator)
  {
    var i :| 0 <= i < |options| && options[i] == Entry("separator", separator);
    assert ValueAt(options, "separator") == options[i].value;
  }

  /** What a caller sees that wraps `translate` in `catch(:exception)`, as `I18n.translate`
      and the Chain backend do: a value, or an exception. */
  datatype Caught = Value(v: Value) | Exception(e: Error)

  function CaughtView(outcome: Outcome): (seen: Caught) {
    match outcome
    case Returned(v) => Value(v)
    case Thrown(v) => Value(v)
    case Raised(e) => Exception(e)
  }

  /** Such a caller cannot tell the mixin from the bare engine: same value, same exception. */
  lemma ReemitIsTransparent(env: Env, outcome: Outcome)
    ensures CaughtView(Reemit(env, outcome)) == CaughtView(outcome)
  {
  }

  /** A counted miss for `greeting` in `pl`, whose categories are zero, one, few and other,
      with nothing stored yet and `count` reserved: four stubs, in category order, with no interpolations. */
  method PluralScenario(env: Env)
    requires env.pluralKeys("pl") == ["zero", "one", "few", "other"]
    requires env.flattenSeparator == "."
    requires env.missingTranslationDefined
    requires "count" in env.reservedKeys
    requires forall l, k, sc, sep :: env.normalizeFlatKeys(l, k, sc, sep) == "greeting"
  {
    var backend := new Backend(env, []);
    var options := [Entry("count", Int(1))];
    var miss := MissingTranslation("pl", Symbol("greeting"));
    var r := backend.Translate("pl", Symbol("greeting"), options, Thrown(miss));
    assert r == Thrown(miss);
    assert Interpolations(env, options) == [];
    assert !Exists(env, [], "pl", "greeting");
    var keys: seq<string> := ["greeting.zero", "greeting.one", "greeting.few", "greeting.other"];
    assert ValueAt(options, "count") == Int(1);
    assert "greeting" + "." + "zero" == keys[0] && "greeting" + "." + "one" == keys[1];
    assert "greeting" + "." + "few" == keys[2] && "greeting" + "." + "other" == keys[3];
    assert StubKeys(env, "pl", "greeting", options) == keys;
    assert backend.store == [Stub("pl", "greeting.zero", []), Stub("pl", "greeting.one", []),
                             Stub("pl", "greeting.few", []), Stub("pl", "greeting.other", [])];
  }

  /** Options `{count: 3, scope: "home", name: "Ann"}` with reserved keys count, scope, locale
      and default record the single interpolation `name`. */
  lemma InterpolationScenario(env: Env)
    requires env.reservedKeys == ["count", "scope", "locale", "default"]
    ensures Interpolations(env, [Entry("count", Int(3)), Entry("scope", Str("home")), Entry("name", Str("Ann"))]) == ["name"]
  {
    var options := [Entry("count", Int(3)), Entry("scope", Str("home")), Entry("name", Str("Ann"))];
    var ks: seq<Sym> := ["count", "scope", "name"];
    assert Keys(options) == ks;
    assert ks[1..] == ["scope", "name"] && ks[1..][1..] == ["name"] && ks[1..][1..][1..] == [];
    assert "count" in env.reservedKeys && "scope" in env.reservedKeys && "name" !in env.reservedKeys;
    assert Difference(ks, env.reservedKeys) == Difference(ks[1..], env.reservedKeys);
    assert Difference(ks[1..], env.reservedKeys) == Difference(ks[1..][1..], env.reservedKeys);
    assert Difference(ks[1..][1..], env.reservedKeys) == ["name"] + Difference(ks[1..][1..][1..], env.reservedKeys);
  }
}
