/** java.util.LinkedHashMap as a value: a map together with its insertion (iteration) order. */
module LinkedMaps {

  /** No element occurs twice. */
  predicate Distinct<T(==)>(s: seq<T>) {
    forall i, j :: 0 <= i < j < |s| ==> s[i] != s[j]
  }

  /** `keys` is the iteration order, `values` the mapping itself. */
  datatype LinkedMap<K, V> = LinkedMap(keys: seq<K>, values: map<K, V>) {

    /** Every key is iterated exactly once. */
    ghost predicate Valid() {
      && Distinct(keys)
      && (forall k :: k in values ==> k in keys)
      && (forall k :: k in keys ==> k in values)
    }

    /** `isEmpty()`. */
    predicate IsEmpty() {
      |keys| == 0
    }

    /** `put(k, v)`: a new key goes to the end of the order; an existing key keeps its place
        and gets the new value. */
    function Put(k: K, v: V): (r: LinkedMap<K, V>)
      requires Valid()
      ensures r.Valid()
      ensures r.values == values[k := v]
      ensures r.keys == if k in values then keys else keys + [k]
    {
      if k in values then LinkedMap(keys, values[k := v]) else LinkedMap(keys + [k], values[k := v])
    }

    /** `putAll(other)`: `put` of every entry of `other`, in `other`'s iteration order. */
    function PutAll(other: LinkedMap<K, V>): (r: LinkedMap<K, V>)
      requires Valid() && other.Valid()
      ensures r.Valid()
    {
      PutKeys(this, other.keys, other.values)
    }
  }

  /** `clear()`: the empty map. */
  function Empty<K, V>(): (r: LinkedMap<K, V>)
    ensures r.Valid() && r.IsEmpty() && r.values == map[]
  {
    LinkedMap([], map[])
  }

  /** The puts `putAll` performs, one key of `ks` at a time. */
  function PutKeys<K, V>(m: LinkedMap<K, V>, ks: seq<K>, src: map<K, V>): (r: LinkedMap<K, V>)
    requires m.Valid()
    requires forall k :: k in ks ==> k in src
    ensures r.Valid() && |m.keys| <= |r.keys|
    decreases |ks|
  {
    if |ks| == 0 then m else PutKeys(m.Put(ks[0], src[ks[0]]), ks[1..], src)
  }

  /** The entries of `src` whose keys are listed in `ks`. */
  function Restrict<K, V>(src: map<K, V>, ks: seq<K>): (r: map<K, V>)
    requires forall k :: k in ks ==> k in src
  {
    map k | k in ks :: src[k]
  }

  /** Restricting a map to a list of all its keys gives the map back. */
  lemma RestrictToAllKeys<K, V>(src: map<K, V>, ks: seq<K>)
    requires forall k :: k in ks <==> k in src
    ensures Restrict(src, ks) == src
  {
    assert Restrict(src, ks).Keys == src.Keys;
  }

  /** Restricting to `k :: ks` is restricting to `ks` and then adding `k`. */
  lemma RestrictCons<K, V>(src: map<K, V>, ks: seq<K>)
    requires |ks| > 0 && forall k :: k in ks ==> k in src
    ensures Restrict(src, ks) == Restrict(src, ks[1..])[ks[0] := src[ks[0]]]
  {
    var a, b := Restrict(src, ks), Restrict(src, ks[1..])[ks[0] := src[ks[0]]];
    assert forall k :: k in ks <==> k == ks[0] || k in ks[1..];
    assert a.Keys == b.Keys;
  }

  /** Updating the left map of a union with a value the right map agrees with is updating
      the right map. */
  lemma UpdateThenUnion<K, V>(a: map<K, V>, k: K, v: V, b: map<K, V>)
    requires k in b ==> b[k] == v
    ensures a[k := v] + b == a + b[k := v]
  {
  }

  /** A union absorbs its right operand, and the empty map is a left unit. */
  lemma UnionAbsorbs<K, V>(a: map<K, V>, b: map<K, V>)
    ensures (a + b) + b == a + b
    ensures a == map[] ==> a + b == b
  {
  }

  /** Moving the head of `ks` to the end of `s`. */
  lemma ConsAppend<T>(s: seq<T>, ks: seq<T>)
    requires |ks| > 0
    ensures s + [ks[0]] + ks[1..] == s + ks
  {
    assert ks == [ks[0]] + ks[1..];
  }

  /** Putting keys that are all new appends them, in order. */
  lemma {:induction false} PutKeysFresh<K, V>(m: LinkedMap<K, V>, ks: seq<K>, src: map<K, V>)
    requires m.Valid() && Distinct(ks)
    requires forall k :: k in ks ==> k in src && k !in m.values
    ensures PutKeys(m, ks, src) == LinkedMap(m.keys + ks, m.values + Restrict(src, ks))
    decreases |ks|
  {
    if |ks| > 0 {
      var k0, rest := ks[0], ks[1..];
      var m' := m.Put(k0, src[k0]);
      assert m' == LinkedMap(m.keys + [k0], m.values[k0 := src[k0]]);
      assert Distinct(rest) by {
        forall i, j | 0 <= i < j < |rest| ensures rest[i] != rest[j] {
          assert rest[i] == ks[i + 1] && rest[j] == ks[j + 1];
        }
      }
      assert forall k :: k in rest ==> k in src && k !in m'.values by {
        forall k | k in rest ensures k in src && k !in m'.values {
          var i :| 0 <= i < |rest| && rest[i] == k;
          assert ks[i + 1] == k && ks[0] != ks[i + 1];
        }
      }
      PutKeysFresh(m', rest, src);
      ConsAppend(m.keys, ks);
      RestrictCons(src, ks);
      UpdateThenUnion(m.values, k0, src[k0], Restrict(src, rest));
      assert PutKeys(m, ks, src) == PutKeys(m', rest, src);
      assert m'.values + Restrict(src, rest) == m.values + Restrict(src, ks);
    }
  }

  /** Putting keys that are all present keeps the order and overwrites the values. */
  lemma {:induction false} PutKeysPresent<K, V>(m: LinkedMap<K, V>, ks: seq<K>, src: map<K, V>)
    requires m.Valid()
    requires forall k :: k in ks ==> k in src && k in m.values
    ensures PutKeys(m, ks, src) == LinkedMap(m.keys, m.values + Restrict(src, ks))
    decreases |ks|
  {
    if |ks| > 0 {
      var m' := m.Put(ks[0], src[ks[0]]);
      PutKeysPresent(m', ks[1..], src);
      RestrictCons(src, ks);
      UpdateThenUnion(m.values, ks[0], src[ks[0]], Restrict(src, ks[1..]));
      assert m'.values + Restrict(src, ks[1..]) == m.values + Restrict(src, ks);
    }
  }

  /** After any sequence of puts, every put key maps to its last value. */
  lemma {:induction false} PutKeysMapsTo<K, V>(m: LinkedMap<K, V>, ks: seq<K>, src: map<K, V>)
    requires m.Valid()
    requires forall k :: k in ks ==> k in src
    ensures PutKeys(m, ks, src).values == m.values + Restrict(src, ks)
    decreases |ks|
  {
    if |ks| > 0 {
      var m' := m.Put(ks[0], src[ks[0]]);
      PutKeysMapsTo(m', ks[1..], src);
      RestrictCons(src, ks);
      UpdateThenUnion(m.values, ks[0], src[ks[0]], Restrict(src, ks[1..]));
    }
  }

  /** A prefix of a prefix is a prefix. */
  lemma PrefixOfPrefix<T>(a: seq<T>, b: seq<T>, c: seq<T>)
    requires |a| <= |b| <= |c| && c[..|b|] == b && b[..|a|] == a
    ensures c[..|a|] == a
  {
    assert c[..|a|] == c[..|b|][..|a|];
  }

  /** After any sequence of puts, the old keys are kept in their old order at the front. */
  lemma {:induction false} PutKeysKeepsOrder<K, V>(m: LinkedMap<K, V>, ks: seq<K>, src: map<K, V>)
    requires m.Valid()
    requires forall k :: k in ks ==> k in src
    ensures PutKeys(m, ks, src).keys[..|m.keys|] == m.keys
    decreases |ks|
  {
    if |ks| > 0 {
      var m' := m.Put(ks[0], src[ks[0]]);
      PutKeysKeepsOrder(m', ks[1..], src);
      var r := PutKeys(m', ks[1..], src);
      assert m'.keys[..|m.keys|] == m.keys;
      PrefixOfPrefix(m.keys, m'.keys, r.keys);
    }
  }

  /** After any sequence of puts, every put key maps to its last value and the old keys are
      kept in their old order at the front. */
  lemma PutKeysValues<K, V>(m: LinkedMap<K, V>, ks: seq<K>, src: map<K, V>)
    requires m.Valid()
    requires forall k :: k in ks ==> k in src
    ensures PutKeys(m, ks, src).Valid()
    ensures PutKeys(m, ks, src).values == m.values + Restrict(src, ks)
    ensures PutKeys(m, ks, src).keys[..|m.keys|] == m.keys
  {
    PutKeysMapsTo(m, ks, src);
    PutKeysKeepsOrder(m, ks, src);
  }

  /** `putAll` keeps a map well formed, lets `other` win on shared keys and leaves the order
      of the keys that were already there untouched. */
  lemma PutAllMerges<K, V>(m: LinkedMap<K, V>, other: LinkedMap<K, V>)
    requires m.Valid() && other.Valid()
    ensures m.PutAll(other).Valid()
    ensures m.PutAll(other).values == m.values + other.values
    ensures m.PutAll(other).keys[..|m.keys|] == m.keys
  {
    PutKeysValues(m, other.keys, other.values);
    RestrictToAllKeys(other.values, other.keys);
  }

  /** `clear()` then `putAll(other)` leaves exactly `other`, in `other`'s order: nothing that
      was there before survives. */
  lemma ClearThenPutAll<K, V>(other: LinkedMap<K, V>)
    requires other.Valid()
    ensures Empty<K, V>().PutAll(other) == other
  {
    var e := Empty<K, V>();
    assert e.PutAll(other) == PutKeys(e, other.keys, other.values);
    PutKeysFresh(e, other.keys, other.values);
    RestrictToAllKeys(other.values, other.keys);
    assert e.keys + other.keys == other.keys;
    UnionAbsorbs(e.values, other.values);
  }

  /** Merging the same map a second time changes nothing. */
  lemma PutAllIdempotent<K, V>(m: LinkedMap<K, V>, other: LinkedMap<K, V>)
    requires m.Valid() && other.Valid()
    ensures m.PutAll(other).PutAll(other) == m.PutAll(other)
  {
    var once := m.PutAll(other);
    PutAllMerges(m, other);
    assert once.PutAll(other) == PutKeys(once, other.keys, other.values);
    PutKeysPresent(once, other.keys, other.values);
    RestrictToAllKeys(other.values, other.keys);
    UnionAbsorbs(m.values, other.values);
  }
}
