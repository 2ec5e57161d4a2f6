/** Results, optional values and the rounding rule shared by every service. */
module Common {

  datatype Option<+T> = None | Some(value: T)

  /** The HTTP status a service answers a refused request with. */
  datatype Fault = NotFound | Conflict | Unprocessable | Forbidden

  datatype Result<+T> = Ok(value: T) | Err(fault: Fault) {
    predicate IsFailure() {
      Err?
    }

    function PropagateFailure<U>(): Result<U>
      requires Err?
    {
      Err(fault)
    }

    function Extract(): T
      requires Ok?
    {
      value
    }
  }

  function Min(a: int, b: int): int
  {
    if a <= b then a else b
  }

  function Max(a: int, b: int): int
  {
    if a >= b then a else b
  }

  lemma DivisionBounds(n: int, d: int)
    requires d > 0
    ensures 0 <= n - (n / d) * d < d
    ensures n >= 0 ==> n / d >= 0
  {
  }

  /** Decimal quantisation: round to nearest, ties to the even neighbour. */
  function RoundHalfEven(n: int, d: int): (r: int)
    requires d > 0
    ensures 2 * (r * d - n) <= d && 2 * (n - r * d) <= d
    ensures 2 * (r * d - n) == d || 2 * (n - r * d) == d ==> r % 2 == 0
    ensures n >= 0 ==> r >= 0
  {
    DivisionBounds(n, d);
    var q := n / d;
    var rest := n - q * d;
    assert (q + 1) * d == q * d + d;
    if 2 * rest < d || (2 * rest == d && q % 2 == 0) then q else q + 1
  }
}
