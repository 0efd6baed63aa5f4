/** The Missing mixin of the Sequel bitemporal I18n backend: on a translation miss it
    stores one stub record per missing key (one per plural category for a counted
    lookup), then hands the miss back to the caller exactly as the engine produced it. */
module Missing {
  import opened RubyValues

  /** The collaborators the mixin calls but does not define. */
  datatype Env = Env(
    /** `normalize_flat_keys(locale, key, scope, separator)` of the Flatten module. */
    normalizeFlatKeys: (Sym, Value, Value, Value) -> Sym,
    /** `I18n.t('i18n.plural.keys', :locale => locale)`: the locale's plural categories, in order. */
    pluralKeys: Sym -> seq<Sym>,
    /** `RESERVED_KEYS`: the option names that are lookup controls, not interpolations. */
    reservedKeys: seq<Sym>,
    /** `I18n.default_separator`. */
    defaultSeparator: Value,
    /** `FLATTEN_SEPARATOR` of the Flatten module. */
    flattenSeparator: string,
    /** Does a stored key answer `Translation.lookup(queryKey)`? (stored key, query key). */
    keyMatches: (string, string) -> bool,
    /** `I18n.const_defined?(:MissingTranslation)`. */
    missingTranslationDefined: bool)

  /** A row of the translations table: a real translation, or a stub whose value is `nil`. */
  datatype Translation = Translation(locale: Sym, key: string, value: Value, interpolations: seq<Sym>)

  /** The exceptions the inner engine may raise. */
  datatype Error =
    | MissingTranslationData(locale: Sym, key: Value)
    | OtherError(name: string)

  /** How a call of the inner engine (`super`) ends: it returns a value, throws a value
      to the `:exception` tag, or raises an exception. */
  datatype Outcome =
    | Returned(value: Value)
    | Thrown(value: Value)
    | Raised(error: Error)

  /** The record `store_default_translation` writes for one key: `nil` value, given interpolations. */
  function Stub(locale: Sym, key: string, interpolations: seq<Sym>): (t: Translation) {
    Translation(locale, key, Nil, interpolations)
  }

  /** The separator handed to the normaliser: the `:separator` option, unless that is
      `nil` or `false` (`separator ||= I18n.default_separator`). */
  function Separator(env: Env, options: Options): (separator: Value) {
    var separator := ValueAt(options, "separator");
    if Truthy(separator) then separator else env.defaultSeparator
  }

  /** The requested key, normalised with the `:scope` and the separator of the options. */
  function NormalizedKey(env: Env, locale: Sym, key: Value, options: Options): (normalized: Sym) {
    env.normalizeFlatKeys(locale, key, ValueAt(options, "scope"), Separator(env, options))
  }

  /** `!Translation.locale(locale).lookup(key).empty?`: some stored record of that locale answers the key. */
  predicate Exists(env: Env, store: seq<Translation>, locale: Sym, key: Sym) {
    exists t :: t in store && t.locale == locale && env.keyMatches(t.key, key)
  }

  /** `options.keys - RESERVED_KEYS`: the interpolation names recorded with every stub. */
  function Interpolations(env: Env, options: Options): (names: seq<Sym>)
    ensures forall n :: n in names <==> (exists i :: 0 <= i < |options| && options[i].key == n) && n !in env.reservedKeys
  {
    var ks := Keys(options);
    assert forall n :: n in ks <==> exists i :: 0 <= i < |options| && options[i].key == n by {
      forall n | n in ks ensures exists i :: 0 <= i < |options| && options[i].key == n {
        var i :| 0 <= i < |ks| && ks[i] == n;
        assert options[i].key == n;
      }
      forall i | 0 <= i < |options| ensures options[i].key in ks {
        assert ks[i] == options[i].key;
      }
    }
    Difference(ks, env.reservedKeys)
  }

  /** `categories.map { |k| [key, k].join(FLATTEN_SEPARATOR) }`. */
  function Expand(key: Sym, categories: seq<Sym>, separator: string): (keys: seq<string>)
    ensures |keys| == |categories|
    ensures forall i :: 0 <= i < |categories| ==> keys[i] == key + separator + categories[i]
  {
    if |categories| == 0 then []
    else [key + separator + categories[0]] + Expand(key, categories[1..], separator)
  }

  /** The keys to stub for a normalised key: one per plural category when `:count` is
      truthy (even `0`), otherwise the key alone. */
  function StubKeys(env: Env, locale: Sym, key: Sym, options: Options): (keys: seq<string>) {
    if Truthy(ValueAt(options, "count")) then Expand(key, env.pluralKeys(locale), env.flattenSeparator)
    else [key]
  }

  /** One stub per key, in the order of the keys, all with the same interpolations. */
  function Stubs(locale: Sym, keys: seq<string>, interpolations: seq<Sym>): (stubs: seq<Translation>)
    ensures |stubs| == |keys|
    ensures forall i :: 0 <= i < |keys| ==> stubs[i] == Stub(locale, keys[i], interpolations)
  {
    if |keys| == 0 then []
    else [Stub(locale, keys[0], interpolations)] + Stubs(locale, keys[1..], interpolations)
  }

  /** The records `store_default_translations(locale, key, options)` appends to `store`. */
  function Materialized(env: Env, store: seq<Translation>, locale: Sym, key: Value, options: Options): (stubs: seq<Translation>)
    // a record already answers the normalised key: nothing is written
    ensures Exists(env, store, locale, NormalizedKey(env, locale, key, options)) ==> stubs == []
    // not a counted lookup: exactly one stub, for the normalised key itself
    ensures !Exists(env, store, locale, NormalizedKey(env, locale, key, options)) && !Truthy(ValueAt(options, "count")) ==>
      stubs == [Stub(locale, NormalizedKey(env, locale, key, options), Interpolations(env, options))]
    // a counted lookup: one stub per plural category, in order, joined with FLATTEN_SEPARATOR
    ensures !Exists(env, store, locale, NormalizedKey(env, locale, key, options)) && Truthy(ValueAt(options, "count")) ==>
      |stubs| == |env.pluralKeys(locale)| &&
      forall i :: 0 <= i < |stubs| ==>
        stubs[i] == Stub(locale, NormalizedKey(env, locale, key, options) + env.flattenSeparator + env.pluralKeys(locale)[i],
                         Interpolations(env, options))
    // every record written is a stub of this locale carrying the same interpolations
    ensures forall t :: t in stubs ==> t.locale == locale && t.value == Nil && t.interpolations == Interpolations(env, options)
  {
    var normalized := NormalizedKey(env, locale, key, options);
    if Exists(env, store, locale, normalized) then []
    else Stubs(locale, StubKeys(env, locale, normalized, options), Interpolations(env, options))
  }

  /** Is the engine's outcome a miss the mixin reacts to? A value (returned or thrown)
      that is an `I18n::MissingTranslation`, or a raised `I18n::MissingTranslationData`. */
  predicate IsMiss(env: Env, outcome: Outcome) {
    match outcome
    case Returned(v) => env.missingTranslationDefined && v.MissingTranslation?
    case Thrown(v) => env.missingTranslationDefined && v.MissingTranslation?
    case Raised(e) => e.MissingTranslationData?
  }

  /** What `translate` hands on for the engine's outcome: `catch(:exception)` turns a thrown
      value into a plain result; a miss value is thrown again, anything else is returned;
      a raised exception propagates (re-raised when it is a `MissingTranslationData`). */
  function Reemit(env: Env, outcome: Outcome): (r: Outcome)
    // a thrown soft miss and every raised exception come back identically
    ensures (outcome.Thrown? && IsMiss(env, outcome)) || outcome.Raised? ==> r == outcome
    // a found value comes back identically
    ensures outcome.Returned? && !IsMiss(env, outcome) ==> r == outcome
    // the value or the exception is never altered, only the way it leaves
    ensures r.Raised? <==> outcome.Raised?
    ensures r.Raised? ==> r.error == outcome.error
    ensures !r.Raised? ==> r.value == outcome.value && (r.Thrown? <==> IsMiss(env, outcome))
  {
    match outcome
    case Raised(e) => outcome
    case Returned(v) => if IsMiss(env, outcome) then Thrown(v) else Returned(v)
    case Thrown(v) => if IsMiss(env, outcome) then Thrown(v) else Returned(v)
  }

  /** A backend chain that includes the Missing mixin, over the translations table `store`. */
  class Backend {
    const env: Env
    var store: seq<Translation>

    constructor (env: Env, store: seq<Translation>)
      ensures this.env == env && this.store == store
    {
      this.env := env;
      this.store := store;
    }

    /** `store_default_translation`: save one stub record. */
    method StoreDefaultTranslation(locale: Sym, key: string, interpolations: seq<Sym>)
      modifies this
      ensures store == old(store) + [Stub(locale, key, interpolations)]
    {
      var translation := Translation(locale, key, Nil, []);
      translation := translation.(interpolations := interpolations);
      store := store + [translation];
    }

    /** `store_default_translations`: unless a record answers the normalised key, save
        one stub per key to stub. Existing records are left as they are. */
    method StoreDefaultTranslations(locale: Sym, key: Value, options: Options)
      modifies this
      ensures store == old(store) + Materialized(env, old(store), locale, key, options)
    {
      var count, scope, separator := ValueAt(options, "count"), ValueAt(options, "scope"), ValueAt(options, "separator");
      if !Truthy(separator) {
        separator := env.defaultSeparator;
      }
      var normalized := env.normalizeFlatKeys(locale, key, scope, separator);
      if !Exists(env, store, locale, normalized) {
        var interpolations := Difference(Keys(options), env.reservedKeys);
        var keys := if Truthy(count) then Expand(normalized, env.pluralKeys(locale), env.flattenSeparator) else [normalized];
        ghost var before := store;
        var i := 0;
        while i < |keys|
          invariant 0 <= i <= |keys|
          invariant |store| == |before| + i
          invariant store[..|before|] == before
          invariant forall j :: 0 <= j < i ==> store[|before| + j] == Stub(locale, keys[j], interpolations)
        {
          StoreDefaultTranslation(locale, keys[i], interpolations);
          i := i + 1;
        }
        ghost var stubs := Stubs(locale, keys, interpolations);
        forall j | 0 <= j < |store| ensures store[j] == (before + stubs)[j] {
          if j < |before| {
            assert store[j] == store[..|before|][j];
          }
        }
        assert store == before + stubs;
      }
    }

    /** `translate`: run the inner engine (its outcome is the parameter `inner`); on a miss
        store the stubs for the original locale, key and options, then hand the miss on. */
    method Translate(locale: Sym, key: Value, options: Options, inner: Outcome) returns (r: Outcome)
      modifies this
      ensures r == Reemit(env, inner)
      ensures IsMiss(env, inner) ==> store == old(store) + Materialized(env, old(store), locale, key, options)
      ensures !IsMiss(env, inner) ==> store == old(store)
    {
      if inner.Raised? {
        if inner.error.MissingTranslationData? {
          StoreDefaultTranslations(locale, key, options);
        }
        r := inner;
      } else {
        var result := inner.value;
        if env.missingTranslationDefined && result.MissingTranslation? {
          StoreDefaultTranslations(locale, key, options);
          r := Thrown(result);
        } else {
          r := Returned(result);
        }
      }
    }
  }
}
