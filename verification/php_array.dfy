/**
 * PHP arrays with string keys, as the mega menu code uses them: an ordered
 * dictionary whose keys keep their insertion order. Only the array functions
 * the core calls are modelled: `$a[$k] = $v`, `array_fill_keys`,
 * `array_merge`, `array_intersect_key` and the union operator `+`.
 *
 * PHP turns numeric-string keys into integers and `array_merge` renumbers
 * integer keys; keys here are never renumbered.
 */
module PhpArray {

  /** The keys in order, and the value stored under each. */
  datatype RawArray<V> = RawArray(keys: seq<string>, vals: map<string, V>) {
    ghost predicate Valid() {
      && Distinct(keys)
      && (forall k :: k in vals <==> k in keys)
    }
  }

  ghost predicate Distinct(s: seq<string>) {
    forall i, j :: 0 <= i < j < |s| ==> s[i] != s[j]
  }

  lemma DistinctAppend(a: seq<string>, b: seq<string>)
    requires Distinct(a) && Distinct(b)
    requires forall x :: x in a ==> x !in b
    ensures Distinct(a + b)
  {
    forall i, j | 0 <= i < j < |a + b|
      ensures (a + b)[i] != (a + b)[j]
    {
      if i < |a| <= j {
        assert (a + b)[i] in a && (a + b)[j] == b[j - |a|];
      }
    }
  }

  /** A well-formed PHP array: every key once, in order, each with a value. */
  type Arr<V> = a: RawArray<V> | a.Valid() witness RawArray([], map[])

  function Empty<V>(): (r: Arr<V>)
    ensures r.keys == [] && r.vals == map[]
  {
    RawArray([], map[])
  }

  /**
   * `$a[$k] = $v`: a new key goes to the end, an existing key keeps its
   * position and takes the new value.
   */
  function Put<V>(a: Arr<V>, k: string, v: V): (r: Arr<V>)
    ensures r.vals == a.vals[k := v]
    ensures k in a.vals ==> r.keys == a.keys
    ensures k !in a.vals ==> r.keys == a.keys + [k]
  {
    if k in a.vals then RawArray(a.keys, a.vals[k := v])
    else RawArray(a.keys + [k], a.vals[k := v])
  }

  /** The elements of `s` that are in `s'` when `inside`, or not in it otherwise, in order. */
  function Filter(s: seq<string>, s': set<string>, inside: bool): (r: seq<string>)
    ensures |r| <= |s|
    ensures forall x :: x in r <==> x in s && ((x in s') == inside)
  {
    if s == [] then []
    else
      var rest := Filter(s[1..], s', inside);
      if (s[0] in s') == inside then [s[0]] + rest else rest
  }

  /** Filtering keeps the elements distinct. */
  lemma {:induction false} FilterDistinct(s: seq<string>, s': set<string>, inside: bool)
    requires Distinct(s)
    ensures Distinct(Filter(s, s', inside))
  {
    if s != [] {
      FilterDistinct(s[1..], s', inside);
      assert s[0] !in s[1..];
      if (s[0] in s') == inside {
        DistinctAppend([s[0]], Filter(s[1..], s', inside));
      }
    }
  }

  lemma {:induction false} FilterAppend(a: seq<string>, b: seq<string>, s': set<string>, inside: bool)
    ensures Filter(a + b, s', inside) == Filter(a, s', inside) + Filter(b, s', inside)
  {
    if a == [] {
      assert a + b == b;
    } else {
      assert (a + b)[1..] == a[1..] + b;
      FilterAppend(a[1..], b, s', inside);
    }
  }

  lemma {:induction false} FilterKeepsAll(a: seq<string>, s': set<string>, inside: bool)
    requires forall x :: x in a ==> (x in s') == inside
    ensures Filter(a, s', inside) == a
  {
    if a != [] {
      FilterKeepsAll(a[1..], s', inside);
    }
  }

  lemma {:induction false} FilterKeepsNone(a: seq<string>, s': set<string>, inside: bool)
    requires forall x :: x in a ==> (x in s') != inside
    ensures Filter(a, s', inside) == []
  {
    if a != [] {
      FilterKeepsNone(a[1..], s', inside);
    }
  }

  /** `array_fill_keys($keys, $v)`: the given keys, in order, each holding `v`. */
  function FillKeys<V>(keys: seq<string>, v: V): (r: Arr<V>)
    requires Distinct(keys)
    ensures r.keys == keys
    ensures forall k :: k in r.vals ==> r.vals[k] == v
  {
    RawArray(keys, map k | k in keys :: v)
  }

  /**
   * `array_merge($a, $b)` for string keys: the keys of `a` in their order,
   * then the keys only `b` has; on a shared key the value of `b` wins.
   */
  function Merge<V>(a: Arr<V>, b: Arr<V>): (r: Arr<V>)
    ensures r.keys == a.keys + Filter(b.keys, a.vals.Keys, false)
    ensures r.vals.Keys == a.vals.Keys + b.vals.Keys
    ensures forall k :: k in b.vals ==> r.vals[k] == b.vals[k]
    ensures forall k :: k in a.vals && k !in b.vals ==> r.vals[k] == a.vals[k]
  {
    var ks := a.keys + Filter(b.keys, a.vals.Keys, false);
    FilterDistinct(b.keys, a.vals.Keys, false);
    DistinctAppend(a.keys, Filter(b.keys, a.vals.Keys, false));
    RawArray(ks, a.vals + b.vals)
  }

  /**
   * `$a + $b`: the keys of `a` in their order, then the keys only `b` has;
   * on a shared key the value of `a` wins.
   */
  function Union<V>(a: Arr<V>, b: Arr<V>): (r: Arr<V>)
    ensures r.keys == a.keys + Filter(b.keys, a.vals.Keys, false)
    ensures r.vals.Keys == a.vals.Keys + b.vals.Keys
    ensures forall k :: k in a.vals ==> r.vals[k] == a.vals[k]
    ensures forall k :: k in b.vals && k !in a.vals ==> r.vals[k] == b.vals[k]
  {
    var ks := a.keys + Filter(b.keys, a.vals.Keys, false);
    FilterDistinct(b.keys, a.vals.Keys, false);
    DistinctAppend(a.keys, Filter(b.keys, a.vals.Keys, false));
    RawArray(ks, b.vals + a.vals)
  }

  /** `array_intersect_key($a, $b)`: the entries of `a` whose key `b` has, in the order of `a`. */
  function IntersectKey<V, W>(a: Arr<V>, b: Arr<W>): (r: Arr<V>)
    ensures r.keys == Filter(a.keys, b.vals.Keys, true)
    ensures r.vals.Keys == a.vals.Keys * b.vals.Keys
    ensures forall k :: k in r.vals ==> r.vals[k] == a.vals[k]
  {
    FilterDistinct(a.keys, b.vals.Keys, true);
    RawArray(Filter(a.keys, b.vals.Keys, true), map k | k in a.vals && k in b.vals :: a.vals[k])
  }

  /**
   * `$a + $b` on arrays whose order does not matter (block configurations):
   * every key of either, the value of `a` on a shared key.
   */
  function Plus<V>(a: map<string, V>, b: map<string, V>): (r: map<string, V>)
    ensures r.Keys == a.Keys + b.Keys
    ensures forall k :: k in a ==> r[k] == a[k]
    ensures forall k :: k in b && k !in a ==> r[k] == b[k]
  {
    b + a
  }

  /**
   * `array_intersect_key(array_merge($empty, $full), $empty)` with
   * `$empty = array_fill_keys($keys, $e)`: exactly `keys`, in their order,
   * each holding the value `full` has for it, or `e` when `full` has none.
   * Entries of `full` under other keys are dropped.
   */
  lemma {:induction false} OrderedByKeys<V>(keys: seq<string>, full: Arr<V>, e: V)
    requires Distinct(keys)
    ensures var empty := FillKeys(keys, e);
            var r := IntersectKey(Merge(empty, full), empty);
            && r.keys == keys
            && forall k :: k in r.vals ==> r.vals[k] == (if k in full.vals then full.vals[k] else e)
  {
    var empty := FillKeys(keys, e);
    var s := empty.vals.Keys;
    var extra := Filter(full.keys, s, false);
    FilterAppend(keys, extra, s, true);
    FilterKeepsAll(keys, s, true);
    FilterKeepsNone(extra, s, true);
  }
}
