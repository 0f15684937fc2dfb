/**
 * `is_quantity_valid`: a quantity is valid when it is a positive whole number, whether it
 * arrives as a Python `int` (or `bool`, which is an `int`) or as a `float`; any other value
 * falls through both `isinstance` tests and the function returns None.
 */
module Quantity {
  import opened Common

  /** The dynamic type and value of the argument; a float is a finite real here. */
  datatype Value =
    | IntValue(i: int)
    | BoolValue(b: bool)
    | FloatValue(f: real)
    | OtherValue

  /** `float.is_integer()`. */
  predicate IsInteger(f: real)
  {
    f.Floor as real == f
  }

  /** `is_quantity_valid`; None where the function falls off its end. */
  function IsQuantityValid(q: Value): (r: Option<bool>)
    ensures r.None? <==> q.OtherValue?
  {
    match q
    case FloatValue(f) => Some(IsInteger(f) && f > 0.0)
    case IntValue(i) => Some(i > 0)
    case BoolValue(b) => Some(b)
    case OtherValue => None
  }

  /** `q` denotes the whole number `n` (True counts as 1). */
  predicate WholeValue(q: Value, n: nat)
  {
    match q
    case FloatValue(f) => f == n as real
    case IntValue(i) => i == n
    case BoolValue(b) => b && n == 1
    case OtherValue => false
  }

  /** A quantity is accepted exactly when it denotes a positive whole number. */
  lemma ValidIffPositiveWhole(q: Value)
    ensures IsQuantityValid(q) == Some(true) <==> exists n: nat :: n > 0 && WholeValue(q, n)
  {
    match q
    case FloatValue(f) =>
      if IsQuantityValid(q) == Some(true) {
        var n: nat := f.Floor;
        assert n > 0 && WholeValue(q, n);
      }
    case IntValue(i) =>
      if i > 0 {
        var n: nat := i;
        assert WholeValue(q, n);
      }
    case BoolValue(b) =>
      if b {
        assert WholeValue(q, 1);
      }
    case OtherValue =>
  }

  /** The documented cases: 3.0 is valid, 2.5 and -1.0 are not, zero is rejected as an int and as a float. */
  lemma QuantityExamples()
    ensures IsQuantityValid(FloatValue(3.0)) == Some(true)
    ensures IsQuantityValid(FloatValue(2.5)) == Some(false)
    ensures IsQuantityValid(FloatValue(-1.0)) == Some(false)
    ensures IsQuantityValid(FloatValue(0.0)) == Some(false)
    ensures IsQuantityValid(IntValue(0)) == Some(false)
    ensures IsQuantityValid(OtherValue) == None
  {
    assert (2.5).Floor == 2;
  }
}
