/** pkg/util/ternary: a conditional expression as a generic function. */
module TernaryUtil {

  /** `Ternary(cond, a, b)`: `a` when the condition holds, `b` otherwise. */
  function Ternary<T>(cond: bool, a: T, b: T): (r: T)
    ensures cond ==> r == a
    ensures !cond ==> r == b
  {
    if cond then a else b
  }

  /** The result is always one of the two arguments. */
  lemma TernaryIsOneOf<T>(cond: bool, a: T, b: T)
    ensures Ternary(cond, a, b) == a || Ternary(cond, a, b) == b
  {
  }

  /** The argument that is not selected has no influence on the result. */
  lemma TernaryIgnoresUnselected<T>(a: T, b: T, other: T)
    ensures Ternary(true, a, b) == Ternary(true, a, other)
    ensures Ternary(false, a, b) == Ternary(false, other, b)
  {
  }
}
