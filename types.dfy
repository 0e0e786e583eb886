/**
 * Values shared by the vending-machine model: the exceptions the engine
 * throws, the outcome of an operation, selection buttons, the items that
 * leave the machine through the delivery chute, and the teardown report.
 */
module Types {

  /** The class of the Java exception a failing operation throws. */
  datatype Error =
    | IllegalArgument   // IllegalArgumentException: a validation check failed
    | IllegalState      // IllegalStateException: a duplicate coin kind in construct
    | NullPointer       // NullPointerException: no machine has been constructed yet
    | IndexOutOfBounds  // IndexOutOfBoundsException: List.get past the end of a list

  /** Outcome of an operation that returns nothing: it returns or it throws. */
  datatype Outcome = Ok | Fail(error: Error)

  /** Outcome of an operation that returns a value. */
  datatype Result<T> = Success(value: T) | Failure(error: Error)

  /** A selection button: the name of the pop it sells and its price. */
  datatype Button = Button(name: string, price: int)

  /** An object taken from the delivery chute: a coin (its value) or a pop (its name). */
  datatype Item = CoinItem(value: int) | PopItem(name: string)

  /**
   * What unload reports: the value of the coins left in the coin dispenser,
   * the total of all payments, and every pop still stocked, slot by slot.
   */
  datatype Teardown = Teardown(unusedCoinValue: int, totalPayments: int, pops: seq<string>)
}
