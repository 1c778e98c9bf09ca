/**
 * src/examples/GetAndSet.ts: class Car keeps its price in a private field behind
 * a getter and a setter that refuses negative values by throwing.  The thrown
 * Error is modelled as a returned outcome carrying its message.
 */
module GetAndSet {

  /** The message of the Error the setter throws. */
  const NegativePriceMessage := "Price cannot be negative."

  /** How a write to `price` ends: the value is stored, or an Error is thrown. */
  datatype Outcome = Stored | Thrown(message: string)

  class Car {
    /** The private field `_price`. */
    var storedPrice: real

    /** The invariant the setter's guard keeps: the price is never negative. */
    ghost predicate Valid()
      reads this
    {
      storedPrice >= 0.0
    }

    /** `new Car()`: `_price` starts at 0. */
    constructor ()
      ensures Valid() && Price() == 0.0
    {
      storedPrice := 0.0;
    }

    /** The getter `price`: reads the stored price and changes nothing. */
    function Price(): (p: real)
      reads this
      ensures Valid() ==> p >= 0.0
    {
      storedPrice
    }

    /**
     * The setter `price`: a negative value throws and leaves the price as it was;
     * any other value is stored exactly.  Either way the invariant survives.
     */
    method SetPrice(value: real) returns (outcome: Outcome)
      modifies this
      ensures value < 0.0 ==> outcome == Thrown(NegativePriceMessage) && storedPrice == old(storedPrice)
      ensures value >= 0.0 ==> outcome == Stored && storedPrice == value
      ensures old(Valid()) ==> Valid()
    {
      if value < 0.0 {
        return Thrown(NegativePriceMessage);
      }
      storedPrice := value;
      outcome := Stored;
    }
  }

  /**
   * The usage after the class: set the price to 50000 and read it back, then
   * try -1000, which throws and leaves 50000 in place.
   */
  method CarDemo() returns (shown: real, rejected: Outcome, after: real)
    ensures shown == 50000.0
    ensures rejected == Thrown(NegativePriceMessage)
    ensures after == 50000.0
  {
    var car := new Car();
    var _ := car.SetPrice(50000.0);
    shown := car.Price();
    rejected := car.SetPrice(-1000.0);
    after := car.Price();
  }
}
