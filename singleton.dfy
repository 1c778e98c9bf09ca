/**
 * src/examples/Singleton.ts: class Singleton hands out one shared instance,
 * built by its private constructor on the first call to getInstance and kept in
 * a static field from then on.
 */
module LazySingleton {

  datatype Option<T> = None | Some(value: T)

  /** An instance of class Singleton.  It has no state of its own; only its identity matters. */
  class Singleton {
    constructor ()
    {
    }
  }

  /**
   * The static side of class Singleton: the field `instance`, and a count of how
   * often the private constructor has run.
   */
  class SingletonStatics {
    var instance: Option<Singleton>
    ghost var constructions: nat

    /** The constructor has run exactly once if the slot is filled, and never if it is empty. */
    ghost predicate Valid()
      reads this
    {
      constructions == if instance.Some? then 1 else 0
    }

    /** Program start: `instance` is not yet set and nothing has been built. */
    constructor ()
      ensures Valid() && instance == None && constructions == 0
    {
      instance := None;
      constructions := 0;
    }

    /**
     * `getInstance()`: the first call builds an instance, stores it and returns
     * it; every later call returns the stored instance and builds nothing.
     */
    method GetInstance() returns (s: Singleton)
      modifies this
      ensures old(instance).None? ==> fresh(s) && constructions == old(constructions) + 1
      ensures old(instance).Some? ==> s == old(instance).value && constructions == old(constructions)
      ensures instance == Some(s)
      ensures old(Valid()) ==> Valid()
    {
      if instance.None? {
        var built := new Singleton();
        instance := Some(built);
        constructions := constructions + 1;
      }
      s := instance.value;
    }
  }

  /**
   * The identity check after the class: two calls from program start return the
   * same reference, and the constructor ran once.
   */
  method IdentityDemo() returns (same: bool, ghost built: nat)
    ensures same
    ensures built == 1
  {
    var statics := new SingletonStatics();
    var singleton1 := statics.GetInstance();
    var singleton2 := statics.GetInstance();
    same := singleton1 == singleton2;
    built := statics.constructions;
  }
}
