/**
 * The two JavaScript built-ins that src/examples/Generics.ts relies on: plain
 * objects with Object.assign, and Map.  Both hold their entries in a Table
 * (module Tables) and update it in place.
 */
module Builtins {
  import opened Tables

  /** A plain object: its own enumerable string-keyed data properties, in creation order. */
  class JsObject<V> {
    var keys: seq<string>
    var props: map<string, V>

    /** The object's own properties as a table. */
    function Own(): (t: Table<string, V>)
      reads this
    {
      Table(keys, props)
    }

    ghost predicate Valid()
      reads this
    {
      Tables.Valid(Own())
    }

    /** An object literal such as `{ name: 'Max' }`: a fresh object holding exactly init. */
    constructor Literal(init: Table<string, V>)
      requires Tables.Valid(init)
      ensures Valid() && Own() == init
    {
      keys := init.keys;
      props := init.vals;
    }

    /** `obj[k] = v` on a plain object: an existing property is overwritten in place, a new one goes last. */
    method SetProperty(k: string, v: V)
      modifies this
      ensures Own() == Put(old(Own()), k, v)
    {
      if k !in props {
        keys := keys + [k];
      }
      props := props[k := v];
    }
  }

  /**
   * Object.assign(target, source) (section 20.1.2.1 of ECMA-262) for one source
   * object: the source's own keys are listed once, then for each key in turn the
   * source's current value is read and written into target.  The result is
   * target itself, and nothing but target is changed.  Passing the same object
   * twice is allowed and leaves it as it was.
   */
  method ObjectAssign<V>(target: JsObject<V>, source: JsObject<V>) returns (r: JsObject<V>)
    requires source.Valid()
    modifies target
    ensures r == target
    ensures target.Own() == Assign(old(target.Own()), old(source.Own()))
    ensures old(target.Valid()) ==> target.Valid()
    ensures source != target ==> unchanged(source)
  {
    ghost var t0, s0 := target.Own(), source.Own();
    var ks := source.keys;
    var i := 0;
    while i < |ks|
      invariant 0 <= i <= |ks| && ks == s0.keys
      invariant target.Own() == PutAll(t0, ks[..i], s0.vals)
      invariant source.Own() == s0
    {
      var k := ks[i];
      var v := source.props[k];
      assert ks[..i + 1] == ks[..i] + [k];
      PutAllSnoc(t0, ks[..i], k, s0.vals);
      target.SetProperty(k, v);
      i := i + 1;
      if source == target {
        PutAllOwn(s0, ks[..i]);
      }
    }
    assert ks[..i] == ks;
    r := target;
  }

  /** A JavaScript Map: entries in insertion order, keys compared by Dafny equality. */
  class JsMap<K(==), V> {
    var keys: seq<K>
    var vals: map<K, V>

    /** The map's entries as a table. */
    function Entries(): (t: Table<K, V>)
      reads this
    {
      Table(keys, vals)
    }

    /** `new Map()`: a map with no entries. */
    constructor ()
      ensures Entries() == Empty()
    {
      keys := [];
      vals := map[];
    }

    /**
     * Map.prototype.set (section 24.1.3.9 of ECMA-262): an existing key gets the
     * new value in place, a new key is appended; the map itself is returned.
     */
    method Set(key: K, value: V) returns (self: JsMap<K, V>)
      modifies this
      ensures self == this
      ensures Entries() == Put(old(Entries()), key, value)
    {
      if key !in vals {
        keys := keys + [key];
      }
      vals := vals[key := value];
      self := this;
    }
  }
}
