/** Shared vocabulary of the SimPype model: optional values, results carrying the
    failure the Python code would raise, simulated time with an explicit +inf, and
    the values a random producer can return. */
module Base {

  datatype Option<+T> = None | Some(value: T) {
    function GetOr(default: T): T {
      match this
      case Some(v) => v
      case None => default
    }
  }

  /** The ways the modelled Python code fails: a failing `assert`, a raised
      exception, or SimPy refusing an operation. */
  datatype Error =
    | KeyMissing        // KeyError, or `assert key in dict`
    | AlreadyTriggered  // SimPy: `succeed()` on an event that already triggered
    | WrongLocation     // `assert message.location == self`
    | DuplicateId       // `assert id not in registry`
    | TooFewArguments   // `assert len(args) > 1`
    | NoneEndpoint      // attribute access on a `None` first/last resource
    | NoneQueue         // `None.pop()` when no queue was selected
    | IndexOutOfRange   // IndexError on an empty buffer
    | DivisionByZero    // ZeroDivisionError
    | UndefinedName     // NameError
    | NotAnInteger      // TypeError: `len()` of an object whose `__len__` gives a float
    | NegativeLength    // ValueError: `len()` of an object whose `__len__` is below 0

  datatype Result<+T> = Ok(value: T) | Err(error: Error) {
    predicate IsFailure() { Err? }

    function PropagateFailure<U>(): Result<U>
      requires Err?
    {
      Err(error)
    }

    function Extract(): T
      requires Ok?
    {
      value
    }
  }

  /** Simulated time: a finite instant or the +inf sentinel (`float("inf")`). */
  datatype Time = Fin(t: real) | Inf {
    /** `n < self` for a count compared against a possibly infinite bound. */
    predicate Exceeds(n: real) {
      Inf? || n < t
    }

    /** `n <= self`. */
    predicate AtLeast(n: real) {
      Inf? || n <= t
    }
  }

  /** A capacity: a whole number, or `float("inf")`. */
  datatype Bound = Upto(n: int) | Unbounded {
    /** `n < self`. */
    predicate Exceeds(n: int) {
      Unbounded? || n < this.n
    }

    /** `n <= self`. */
    predicate AtLeast(n: int) {
      Unbounded? || n <= this.n
    }
  }

  /** What a value producer returns: `None` or a number. */
  datatype Value = Nothing | Num(x: real)

  /** Python's `math.ceil` on a finite float. */
  function Ceil(x: real): (c: int)
    ensures x <= c as real < x + 1.0
  {
    -((-x).Floor)
  }

  function Min(a: real, b: real): (m: real)
    ensures m <= a && m <= b
    ensures m == a || m == b
  {
    if a < b then a else b
  }
}
