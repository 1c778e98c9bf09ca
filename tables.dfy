/**
 * An insertion-ordered dictionary: the own string-keyed data properties of a
 * JavaScript object, or the entry list of a JavaScript Map.  Keys are listed in
 * the order in which they were first created; writing to a key that already
 * exists changes its value but not its place in the list.
 */
module Tables {

  datatype Table<K, V> = Table(keys: seq<K>, vals: map<K, V>)

  /** Every key is listed once, and the listed keys are exactly the keys that hold a value. */
  predicate Valid<K, V>(t: Table<K, V>) {
    && (forall i, j :: 0 <= i < j < |t.keys| ==> t.keys[i] != t.keys[j])
    && (forall i :: 0 <= i < |t.keys| ==> t.keys[i] in t.vals)
    && (forall k :: k in t.vals ==> k in t.keys)
  }

  /** The table with no entries: a fresh `{}` or `new Map()`. */
  function Empty<K, V>(): (t: Table<K, V>)
    ensures Valid(t) && t.keys == [] && t.vals == map[]
  {
    Table([], map[])
  }

  /**
   * Stores v under k, as the ordinary [[Set]] of a writable data property
   * (section 10.1.9 of ECMA-262) and Map.prototype.set (section 24.1.3.9 of
   * ECMA-262) do: an existing key keeps its place, a new key goes last.
   */
  function Put<K, V>(t: Table<K, V>, k: K, v: V): (r: Table<K, V>)
    ensures Valid(t) ==> Valid(r)
    ensures k in r.vals && r.vals[k] == v
    ensures r.vals.Keys == t.vals.Keys + {k}
    ensures forall j :: j != k && j in t.vals ==> r.vals[j] == t.vals[j]
    ensures k in t.vals ==> r.keys == t.keys
    ensures k !in t.vals ==> r.keys == t.keys + [k]
  {
    if k in t.vals then Table(t.keys, t.vals[k := v]) else Table(t.keys + [k], t.vals[k := v])
  }

  /** Copies src's value for each key of ks into t, one Put at a time, from left to right. */
  function PutAll<K, V>(t: Table<K, V>, ks: seq<K>, src: map<K, V>): (r: Table<K, V>)
    requires forall k :: k in ks ==> k in src
    ensures Valid(t) ==> Valid(r)
    decreases |ks|
  {
    if ks == [] then t else PutAll(Put(t, ks[0], src[ks[0]]), ks[1..], src)
  }

  /** The keys of ks that are not in known, first occurrences only, in the order of ks. */
  function NewKeys<K>(known: set<K>, ks: seq<K>): (r: seq<K>)
    decreases |ks|
  {
    if ks == [] then []
    else if ks[0] in known then NewKeys(known, ks[1..])
    else [ks[0]] + NewKeys(known + {ks[0]}, ks[1..])
  }

  /**
   * What Object.assign(target, source) leaves in target (section 20.1.2.1 of
   * ECMA-262): source's keys are visited in source's order and each is written
   * into target.
   */
  function Assign<K, V>(target: Table<K, V>, source: Table<K, V>): (r: Table<K, V>)
    requires Valid(source)
    ensures Valid(target) ==> Valid(r)
    ensures r.vals == target.vals + source.vals
    ensures r.vals.Keys == target.vals.Keys + source.vals.Keys
    ensures forall k :: k in source.vals ==> r.vals[k] == source.vals[k]
    ensures forall k :: k in target.vals && k !in source.vals ==> r.vals[k] == target.vals[k]
    ensures r.keys == target.keys + NewKeys(target.vals.Keys, source.keys)
  {
    PutAllValues(target, source.keys, source.vals);
    PutAllKeys(target, source.keys, source.vals);
    assert (map k | k in source.keys :: source.vals[k]) == source.vals;
    PutAll(target, source.keys, source.vals)
  }

  /** The values PutAll leaves: src's for every key of ks, t's for every other key. */
  lemma {:induction false} PutAllValues<K, V>(t: Table<K, V>, ks: seq<K>, src: map<K, V>)
    requires forall k :: k in ks ==> k in src
    ensures PutAll(t, ks, src).vals == t.vals + map k | k in ks :: src[k]
    decreases |ks|
  {
    if ks != [] {
      var k := ks[0];
      var t' := Put(t, k, src[k]);
      PutAllValues(t', ks[1..], src);
      assert t'.vals == t.vals[k := src[k]];
      assert forall j :: j in ks <==> j == k || j in ks[1..];
      assert t'.vals + (map j | j in ks[1..] :: src[j]) == t.vals + (map j | j in ks :: src[j]);
    }
  }

  /** The key order PutAll leaves: t's keys, then the new keys of ks in the order of ks. */
  lemma {:induction false} PutAllKeys<K, V>(t: Table<K, V>, ks: seq<K>, src: map<K, V>)
    requires forall k :: k in ks ==> k in src
    ensures PutAll(t, ks, src).keys == t.keys + NewKeys(t.vals.Keys, ks)
    decreases |ks|
  {
    if ks != [] {
      var k := ks[0];
      var t' := Put(t, k, src[k]);
      PutAllKeys(t', ks[1..], src);
      if k in t.vals {
        assert t'.vals.Keys == t.vals.Keys;
      } else {
        assert t'.vals.Keys == t.vals.Keys + {k};
        assert t'.keys + NewKeys(t'.vals.Keys, ks[1..]) == t.keys + ([k] + NewKeys(t.vals.Keys + {k}, ks[1..]));
      }
    }
  }

  /** A PutAll over ks followed by one more key is one more Put. */
  lemma {:induction false} PutAllSnoc<K, V>(t: Table<K, V>, ks: seq<K>, k: K, src: map<K, V>)
    requires forall j :: j in ks ==> j in src
    requires k in src
    ensures PutAll(t, ks + [k], src) == Put(PutAll(t, ks, src), k, src[k])
    decreases |ks|
  {
    if ks == [] {
      assert ks + [k] == [k];
    } else {
      assert (ks + [k])[1..] == ks[1..] + [k];
      PutAllSnoc(Put(t, ks[0], src[ks[0]]), ks[1..], k, src);
    }
  }

  /** Writing a table's own values back into it changes nothing. */
  lemma {:induction false} PutAllOwn<K, V>(t: Table<K, V>, ks: seq<K>)
    requires forall k :: k in ks ==> k in t.vals
    ensures PutAll(t, ks, t.vals) == t
    decreases |ks|
  {
    if ks != [] {
      var k := ks[0];
      assert t.vals[k := t.vals[k]] == t.vals;
      assert Put(t, k, t.vals[k]) == t;
      PutAllOwn(t, ks[1..]);
    }
  }

  /** Assigning a table into itself leaves it as it was. */
  lemma AssignOwn<K, V>(t: Table<K, V>)
    requires Valid(t)
    ensures Assign(t, t) == t
  {
    PutAllOwn(t, t.keys);
  }

  /** NewKeys lists exactly the keys of ks outside known, each once. */
  lemma {:induction false} NewKeysMembers<K>(known: set<K>, ks: seq<K>)
    ensures forall x :: x in NewKeys(known, ks) <==> x in ks && x !in known
    ensures forall i, j :: 0 <= i < j < |NewKeys(known, ks)| ==> NewKeys(known, ks)[i] != NewKeys(known, ks)[j]
    decreases |ks|
  {
    if ks != [] {
      var k := ks[0];
      assert forall x :: x in ks <==> x == k || x in ks[1..];
      if k in known {
        NewKeysMembers(known, ks[1..]);
      } else {
        NewKeysMembers(known + {k}, ks[1..]);
        var rest := NewKeys(known + {k}, ks[1..]);
        assert NewKeys(known, ks) == [k] + rest;
        forall i, j | 0 <= i < j < |NewKeys(known, ks)|
          ensures NewKeys(known, ks)[i] != NewKeys(known, ks)[j]
        {
          if i > 0 {
            assert NewKeys(known, ks)[i] == rest[i - 1];
          } else {
            assert NewKeys(known, ks)[j] in rest;
          }
        }
      }
    }
  }

  /** When the two key sets are disjoint, the merged table holds both tables' entries, no more and no fewer. */
  lemma AssignDisjointSize<K, V>(target: Table<K, V>, source: Table<K, V>)
    requires Valid(source)
    requires target.vals.Keys !! source.vals.Keys
    ensures |Assign(target, source).vals| == |target.vals| + |source.vals|
  {
    var r := Assign(target, source);
    assert |r.vals| == |r.vals.Keys|;
  }

  /** Merging never yields more entries than the two tables hold together. */
  lemma AssignSizeBound<K, V>(target: Table<K, V>, source: Table<K, V>)
    requires Valid(source)
    ensures |target.vals| <= |Assign(target, source).vals| <= |target.vals| + |source.vals|
  {
    var r := Assign(target, source);
    assert |r.vals| == |r.vals.Keys|;
    UnionSize(target.vals.Keys, source.vals.Keys);
  }

  lemma UnionSize<T>(a: set<T>, b: set<T>)
    ensures |a| <= |a + b| <= |a| + |b|
  {
    assert a + b == a + (b - a) && a * (b - a) == {};
    assert b == (b - a) + (b * a) && (b - a) * (b * a) == {};
  }
}
