/** The few Ruby values and core-library operations the Missing mixin relies on:
    truthiness, an options Hash read with `values_at`, `Hash#keys` and `Array#-`. */
module RubyValues {

  /** A Ruby Symbol, identified by its name (`:count.to_s == "count"`). */
  type Sym = string

  /** The values that reach the mixin as keys, option values and lookup results. */
  datatype Value =
    | Nil
    | Bool(b: bool)
    | Int(i: int)
    | Str(s: string)
    | Symbol(name: Sym)
    | List(items: seq<Value>)
      /** An `I18n::MissingTranslation` object, what the engine hands back on a soft miss. */
    | MissingTranslation(locale: Sym, key: Value)

  /** Ruby truthiness: only `nil` and `false` are false; `0`, `""` and `[]` are true. */
  predicate Truthy(v: Value) {
    !(v.Nil? || v == Bool(false))
  }

  /** No element of `s` occurs twice. */
  predicate Distinct(s: seq<Sym>) {
    forall i, j :: 0 <= i < j < |s| ==> s[i] != s[j]
  }

  /** One key/value pair of an options Hash. */
  datatype Entry = Entry(key: Sym, value: Value)

  /** An options Hash, in insertion order (Ruby Hashes keep it). */
  type Options = seq<Entry>

  /** What every Ruby Hash satisfies: no key occurs twice. */
  predicate IsHash(opts: Options) {
    forall i, j :: 0 <= i < j < |opts| ==> opts[i].key != opts[j].key
  }

  /** `opts[k]`, as `values_at` reads it: the value stored under `k`, or `nil` when there is none. */
  function ValueAt(opts: Options, k: Sym): (v: Value)
    ensures (forall i :: 0 <= i < |opts| ==> opts[i].key != k) ==> v == Nil
    ensures v != Nil ==> exists i :: 0 <= i < |opts| && opts[i] == Entry(k, v)
    ensures IsHash(opts) ==> forall i :: 0 <= i < |opts| && opts[i].key == k ==> v == opts[i].value
  {
    if |opts| == 0 then Nil
    else if opts[0].key == k then opts[0].value
    else
      var v := ValueAt(opts[1..], k);
      assert v != Nil ==> exists i :: 0 <= i < |opts[1..]| && opts[1..][i] == Entry(k, v);
      assert forall i :: 1 <= i < |opts| ==> opts[i] == opts[1..][i - 1];
      v
  }

  /** `opts.keys`: the keys in insertion order. */
  function Keys(opts: Options): (ks: seq<Sym>)
  {
    seq(|opts|, i requires 0 <= i < |opts| => opts[i].key)
  }

  /** `xs - ys` (Array#-): every element of `xs` that does not occur in `ys`, in the order of `xs`.
      Every occurrence of a removed element goes, not only the first. */
  function Difference(xs: seq<Sym>, ys: seq<Sym>): (r: seq<Sym>)
    ensures forall x :: x in r <==> x in xs && x !in ys
    ensures |r| <= |xs|
  {
    if |xs| == 0 then []
    else if xs[0] in ys then Difference(xs[1..], ys)
    else [xs[0]] + Difference(xs[1..], ys)
  }

  /** Array#- keeps the order of its left operand: it distributes over concatenation. */
  lemma {:induction false} DifferenceAppend(a: seq<Sym>, b: seq<Sym>, ys: seq<Sym>)
    ensures Difference(a + b, ys) == Difference(a, ys) + Difference(b, ys)
  {
    if |a| > 0 {
      assert (a + b)[0] == a[0];
      assert (a + b)[1..] == a[1..] + b;
      DifferenceAppend(a[1..], b, ys);
    } else {
      assert a + b == b;
    }
  }

  /** Removing nothing gives the keys back unchanged. */
  lemma {:induction false} DifferenceOfNothing(xs: seq<Sym>)
    ensures Difference(xs, []) == xs
  {
    if |xs| > 0 {
      DifferenceOfNothing(xs[1..]);
    }
  }

  /** Array#- of a list with no repeated element has no repeated element. */
  lemma {:induction false} DifferenceDistinct(xs: seq<Sym>, ys: seq<Sym>)
    requires Distinct(xs)
    ensures Distinct(Difference(xs, ys))
  {
    if |xs| > 0 {
      DifferenceDistinct(xs[1..], ys);
      var rest := Difference(xs[1..], ys);
      if xs[0] !in ys {
        assert xs[0] !in xs[1..] by {
          forall q | 0 <= q < |xs[1..]| ensures xs[1..][q] != xs[0] {
            assert xs[1..][q] == xs[q + 1];
          }
        }
        assert xs[0] !in rest;
        var r := [xs[0]] + rest;
        forall i, j | 0 <= i < j < |r| ensures r[i] != r[j] {
          if i == 0 {
            assert r[j] == rest[j - 1] && rest[j - 1] in rest;
          } else {
            assert r[i] == rest[i - 1] && r[j] == rest[j - 1];
          }
        }
        assert Difference(xs, ys) == r;
      }
    }
  }
}
