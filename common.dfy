/** Small shared vocabulary: optional values, error-carrying results and sums of reals. */
module Common {

  datatype Option<+T> = None | Some(value: T) {
    function GetOr(default: T): T {
      match this
      case Some(v) => v
      case None => default
    }
  }

  /** Raised conditions of the Python code that the model keeps as values. */
  datatype Error =
    | ZeroDivision(operationId: string)   // `x / operation.quantity` with quantity 0
    | InvalidInteger(text: string)        // `int(text)` raising ValueError

  datatype Result<+T> = Ok(value: T) | Failure(error: Error)

  function Abs(x: real): (r: real)
    ensures r >= 0.0 && (r == x || r == -x)
  {
    if x < 0.0 then -x else x
  }

  function IntAbs(x: int): (r: nat)
    ensures r == x || r == -x
  {
    if x < 0 then -x else x
  }

  /** Python's `sum` of a list of floats. */
  function SumReals(xs: seq<real>): real
  {
    if xs == [] then 0.0 else SumReals(xs[..|xs| - 1]) + xs[|xs| - 1]
  }

  lemma {:induction false} SumRealsAppend(xs: seq<real>, ys: seq<real>)
    ensures SumReals(xs + ys) == SumReals(xs) + SumReals(ys)
  {
    if ys == [] {
      assert xs + ys == xs;
    } else {
      assert (xs + ys)[..|xs + ys| - 1] == xs + ys[..|ys| - 1];
      SumRealsAppend(xs, ys[..|ys| - 1]);
    }
  }

  function SumInts(xs: seq<int>): int
  {
    if xs == [] then 0 else SumInts(xs[..|xs| - 1]) + xs[|xs| - 1]
  }

  lemma {:induction false} SumIntsAppend(xs: seq<int>, ys: seq<int>)
    ensures SumInts(xs + ys) == SumInts(xs) + SumInts(ys)
  {
    if ys == [] {
      assert xs + ys == xs;
    } else {
      assert (xs + ys)[..|xs + ys| - 1] == xs + ys[..|ys| - 1];
      SumIntsAppend(xs, ys[..|ys| - 1]);
    }
  }
}
