# Generic merge, validated property and lazy singleton

This project is a Dafny model of the three runtime examples in a TypeScript course repository:

- **Generics** (`src/examples/Generics.ts`). `merge` and `merge2` shallow-merge two objects with `Object.assign(objA, objB)`. `addParameter` builds a `Map` with one entry.
- **GetAndSet** (`src/examples/GetAndSet.ts`). Class `Car` keeps a private `_price` behind a getter and a setter. The setter throws on negative values.
- **Singleton** (`src/examples/Singleton.ts`). Class `Singleton` builds its one instance lazily in `getInstance` and keeps it in a static field.

Layout:

- `tables.dfy`, module `Tables`. An insertion-ordered dictionary (`Table`). It models both the own properties of a plain object and the entries of a `Map`. It defines `Put`, the single write that ordinary property `[[Set]]` and `Map.prototype.set` both perform. It defines `PutAll` and `Assign`, which give the meaning of `Object.assign` (section 20.1.2.1 of ECMA-262). The lemmas about them are here too.
- `builtins.dfy`, module `Builtins`. Class `JsObject` holds a key list and a property map and updates them in place. Method `ObjectAssign` runs the built-in's loop over the source's keys. Class `JsMap` models a `Map` with its `set`.
- `generics.dfy`, module `Generics`. `Merge`, `Merge2` and `AddParameter`, plus the demo calls.
- `getandset.dfy`, module `GetAndSet`. Class `Car` and the demo usage.
- `singleton.dfy`, module `LazySingleton`. Class `Singleton`. Class `SingletonStatics` stands for its static side: the `instance` slot plus a ghost count of constructor runs. The module also holds the identity check.

Thrown errors become a returned `Outcome` that carries the error message. An unset static field (`undefined`) becomes `None`. Both merge functions are modelled as the code has them: `objA` is mutated and returned. `Object.assign` writes into its first argument and returns it; the model does the same. `Merge` and `Merge2` therefore promise `r == objA`, and only `objB` is unchanged (when it is a different object).

## Model

| member | source | states |
|---|---|---|
| `Tables.Put` | src/examples/Generics.ts:28 | a write stores the value under the key and every other key keeps its value; an existing key keeps its place and a new key goes last; a well-formed table stays well-formed |
| `Tables.PutAll` | src/examples/Generics.ts:13 | writing a source's values key by key keeps a table well-formed (distinct keys, key list matching the stored values) |
| `Tables.Assign` | src/examples/Generics.ts:11-14 | after `Object.assign(objA, objB)` the values are the map union of objA's and objB's with objB winning; the key set is the union of both key sets; every key of objB has objB's value; every key only in objA keeps objA's value; key order is objA's keys followed by objB's new keys in objB's order |
| `Tables.PutAllValues` | src/examples/Generics.ts:13 | copying keys ks from a source gives the target's values overridden by the source's values on exactly the keys of ks |
| `Tables.PutAllKeys` | src/examples/Generics.ts:13 | copying keys ks appends each key not already present, once, in the order of ks; existing keys do not move |
| `Tables.PutAllSnoc` | src/examples/Generics.ts:13 | copying one more key is one more write after the earlier ones, which is what each turn of the built-in's loop does |
| `Tables.PutAllOwn` | src/examples/Generics.ts:13 | writing an object's own values back into it changes nothing |
| `Tables.AssignOwn` | src/examples/Generics.ts:11-14 | merging an object into itself leaves it as it was |
| `Tables.NewKeysMembers` | src/examples/Generics.ts:13 | the keys appended by a merge are exactly objB's keys that objA lacked, each listed once |
| `Tables.AssignDisjointSize` | src/examples/Generics.ts:11-14 | when the key sets do not overlap, the result has exactly as many entries as the two inputs together |
| `Tables.AssignSizeBound` | src/examples/Generics.ts:11-14 | the result has at least as many entries as objA and at most as many as objA and objB together |
| `Builtins.JsObject.SetProperty` | src/examples/Generics.ts:13 | assigning one property updates the object in place exactly as `Put` says |
| `Builtins.ObjectAssign` | src/examples/Generics.ts:13 | the target is updated in place to `Assign(old target, old source)` and is itself the result; a distinct source is unchanged; aliasing target and source is handled |
| `Builtins.JsObject.Literal` | src/examples/Generics.ts:6 | an object literal is a fresh, well-formed object holding exactly the listed properties in the listed order |
| `Builtins.JsMap.constructor` | src/examples/Generics.ts:27 | `new Map()` holds no entries |
| `Builtins.JsMap.Set` | src/examples/Generics.ts:28 | `Map.prototype.set` updates the entries exactly as `Put` says and returns the map itself |
| `Generics.Merge` | src/examples/Generics.ts:3-5 | the untyped merge, over objects with values of any type, returns objA itself, updated to objA's properties overridden by objB's; objB is unchanged |
| `Generics.Merge2` | src/examples/Generics.ts:11-14 | the generic merge has the very same runtime contract as `Merge` |
| `Generics.AddParameter` | src/examples/Generics.ts:26-30 | the result is a freshly allocated map with exactly one entry, key -> value |
| `Generics.NameLiteral` | src/examples/Generics.ts:21 | the literal `{ name: 'Max' }` is a fresh well-formed object whose only property is name -> 'Max' |
| `Generics.AgeLiteral` | src/examples/Generics.ts:22 | the literal `{ age: 30 }` is a fresh well-formed object whose only property is age -> 30 |
| `Generics.MergeNameAge` | src/examples/Generics.ts:16-17 | both literals are well-formed, and merging `{ age: 30 }` into `{ name: 'Max' }` gives `{ name: 'Max', age: 30 }` with `name` before `age` |
| `Generics.MergeDemos` | src/examples/Generics.ts:6-24 | each of the three demo merges of `{ name: 'Max' }` and `{ age: 30 }` yields `{ name: 'Max', age: 30 }` with keys in that order, and each result is the first literal itself |
| `GetAndSet.Car.constructor` | src/examples/GetAndSet.ts:3 | a new car has price 0 and satisfies the invariant price >= 0 |
| `GetAndSet.Car.Price` | src/examples/GetAndSet.ts:5-7 | the getter reads the stored price, changes nothing, and under the invariant never returns a negative value |
| `GetAndSet.Car.SetPrice` | src/examples/GetAndSet.ts:9-14 | a negative value throws "Price cannot be negative." and leaves the price unchanged; any other value is stored exactly; the invariant price >= 0 survives both cases |
| `GetAndSet.CarDemo` | src/examples/GetAndSet.ts:17-21 | after setting 50000 the getter shows 50000; the write of -1000 throws and the price is still 50000 |
| `LazySingleton.SingletonStatics.constructor` | src/examples/Singleton.ts:3 | at program start the static slot is empty and nothing has been built |
| `LazySingleton.SingletonStatics.GetInstance` | src/examples/Singleton.ts:5-14 | the first call builds, through the constructor, one fresh instance, stores it and returns it; later calls return the stored instance and build nothing; the slot never changes once set; the (ghost) construction count stays 0 while empty and 1 once set |
| `LazySingleton.IdentityDemo` | src/examples/Singleton.ts:21-24 | two calls return the identical reference and the constructor ran exactly once |

## Left out

- Console output is not modelled. That covers every `console.log` and `Singleton.someMethod` (src/examples/Singleton.ts:16-18). They print and change no state.
- Type-level constructs have no runtime counterpart and are not modelled: the `T extends object` bounds, the intersection type `T & U`, `EndpointURL` and `EventConfig` (src/examples/Generics.ts:33-50). `Merge` and `Merge2` take one value type parameter shared by both objects, because the static types are erased at run time.
- Object.assign covers only flat own enumerable string-keyed data properties here. Symbol keys, getters and setters on either object, non-writable properties, prototypes and proxies are not modelled.
- Key order ignores one JavaScript rule: integer-like keys ("0", "1", …) are listed before other keys in ascending numeric order. Here every key keeps insertion order.
- `JsMap` compares keys with Dafny equality. SameValueZero differs from it only for NaN and signed zero, and those are not modelled.
- GetAndSet.Car.SetPrice: a JavaScript `number` is modelled as a `real`. NaN and the infinities are left out. In JavaScript `NaN < 0` is false, so the setter would store NaN. The model cannot express that.
- The private constructor of class `Singleton` is not modelled as private; nothing in this model stops other code from calling it. Within the model only `GetInstance` builds an instance.
- The static field is process-wide in JavaScript. Here it is an explicit `SingletonStatics` object, and program start is its construction.
- N calls returning one identity is not stated as a separate member. It follows by induction from `GetInstance`: a filled slot is returned and never changes.
- Concurrency is not modelled. The JavaScript runtime is single-threaded and the source has no guard.
