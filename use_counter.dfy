/** The counter hook: one `count` state with increment, decrement and reset to the
    initial value. JavaScript numbers are modelled as unbounded integers. */
module UseCounter {

  class Counter {
    var count: int
    const initialValue: int

    /** `useCounter(initialValue)`. */
    constructor (initialValue: int)
      ensures this.initialValue == initialValue && count == initialValue
    {
      this.initialValue := initialValue;
      count := initialValue;
    }

    /** `useCounter()`: the initial value defaults to 0. */
    constructor Default()
      ensures initialValue == 0 && count == 0
    {
      initialValue := 0;
      count := 0;
    }

    method Increment()
      modifies this
      ensures count == old(count) + 1
    {
      count := count + 1;
    }

    /** There is no lower bound. */
    method Decrement()
      modifies this
      ensures count == old(count) - 1
    {
      count := count - 1;
    }

    method Reset()
      modifies this
      ensures count == initialValue
    {
      count := initialValue;
    }
  }

  /** An increment undone by a decrement leaves the count where it was. */
  method IncrementThenDecrement(c: Counter)
    modifies c
    ensures c.count == old(c.count)
  {
    c.Increment();
    c.Decrement();
  }

  /** Reset wins over any history: `n` increments raise the count by `n`, and a
      reset after them brings it back to the initial value. */
  method IncrementsThenReset(c: Counter, n: nat) returns (reached: int)
    modifies c
    ensures reached == old(c.count) + n
    ensures c.count == c.initialValue
  {
    var i := 0;
    while i < n
      invariant 0 <= i <= n
      invariant c.count == old(c.count) + i
    {
      c.Increment();
      i := i + 1;
    }
    reached := c.count;
    c.Reset();
  }

  /** A count below zero is reachable: decrementing from 0 gives -1. */
  method DecrementBelowZero() returns (count: int)
    ensures count == -1
  {
    var c := new Counter.Default();
    c.Decrement();
    count := c.count;
  }
}
