/**
 * The runtime part of src/examples/Generics.ts: the untyped and the generic
 * shallow merge, both thin wrappers around Object.assign, and the one-entry Map
 * builder.  The type constraints (`T extends object`) and the type aliases have
 * no runtime counterpart and are not modelled.
 */
module Generics {
  import opened Tables
  import opened Builtins

  /** The property values the demos use: strings and numbers. */
  datatype JsValue = Str(s: string) | Num(n: real)

  /**
   * `merge(ojbA: object, objB: object)`: Object.assign(ojbA, objB).  objA is
   * updated in place and returned; on a shared key objB's value wins.
   */
  method Merge<V>(objA: JsObject<V>, objB: JsObject<V>) returns (r: JsObject<V>)
    requires objB.Valid()
    modifies objA
    ensures r == objA
    ensures objA.Own() == Assign(old(objA.Own()), old(objB.Own()))
    ensures old(objA.Valid()) ==> objA.Valid()
    ensures objB != objA ==> unchanged(objB)
  {
    r := ObjectAssign(objA, objB);
  }

  /**
   * `merge2<T extends object, U extends object>(objA: T, objB: U)`: the same call
   * as Merge; only the static result type `T & U` differs, and that is erased.
   */
  method Merge2<V>(objA: JsObject<V>, objB: JsObject<V>) returns (r: JsObject<V>)
    requires objB.Valid()
    modifies objA
    ensures r == objA
    ensures objA.Own() == Assign(old(objA.Own()), old(objB.Own()))
    ensures old(objA.Valid()) ==> objA.Valid()
    ensures objB != objA ==> unchanged(objB)
  {
    r := ObjectAssign(objA, objB);
  }

  /** `addParameter(key, value)`: a new Map holding the single entry key -> value. */
  method AddParameter<K(==), V>(key: K, value: V) returns (m: JsMap<K, V>)
    ensures fresh(m)
    ensures m.Entries() == Table([key], map[key := value])
  {
    m := new JsMap();
    var _ := m.Set(key, value);
  }

  /** The properties of the literals `{ name: 'Max' }`, `{ age: 30 }` and `{ name: 'Max', age: 30 }`. */
  const NameProps := Table(["name"], map["name" := Str("Max")])
  const AgeProps := Table(["age"], map["age" := Num(30.0)])
  const NameAgeProps := Table(["name", "age"], map["name" := Str("Max"), "age" := Num(30.0)])

  /** Merging `{ age: 30 }` into `{ name: 'Max' }` gives `{ name: 'Max', age: 30 }`, keys in that order. */
  lemma MergeNameAge()
    ensures Tables.Valid(NameProps) && Tables.Valid(AgeProps)
    ensures Assign(NameProps, AgeProps) == NameAgeProps
  {
    assert NewKeys(NameProps.vals.Keys, AgeProps.keys) == ["age"];
  }

  /** `{ name: 'Max' }` as a fresh object literal. */
  method NameLiteral() returns (o: JsObject<JsValue>)
    ensures fresh(o) && o.Valid() && o.Own() == NameProps
  {
    o := new JsObject.Literal(NameProps);
  }

  /** `{ age: 30 }` as a fresh object literal. */
  method AgeLiteral() returns (o: JsObject<JsValue>)
    ensures fresh(o) && o.Valid() && o.Own() == AgeProps
  {
    o := new JsObject.Literal(AgeProps);
  }

  /**
   * The three merges of the demo: `merge`, `merge2` with inferred types and
   * `merge2` with explicit types, each of `{ name: 'Max' }` and `{ age: 30 }`.
   * Each gives `{ name: 'Max', age: 30 }`, keys in that order, and each result
   * is the first literal itself.
   */
  method MergeDemos() returns (first: Table<string, JsValue>, second: Table<string, JsValue>,
                               third: Table<string, JsValue>, aliased: bool)
    ensures first == NameAgeProps && second == NameAgeProps && third == NameAgeProps
    ensures aliased
  {
    MergeNameAge();
    var a1 := NameLiteral();
    var b1 := AgeLiteral();
    var r1 := Merge<JsValue>(a1, b1);
    var a2 := NameLiteral();
    var b2 := AgeLiteral();
    var r2 := Merge2<JsValue>(a2, b2);
    var a3 := NameLiteral();
    var b3 := AgeLiteral();
    var r3 := Merge2<JsValue>(a3, b3);
    first, second, third := r1.Own(), r2.Own(), r3.Own();
    aliased := r1 == a1 && r2 == a2 && r3 == a3;
  }
}
