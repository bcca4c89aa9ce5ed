/**
 * The pure comparison primitives of be/assert.go. Each returns `Pass`
 * (Go's nil `*Outcome`) when the relation holds and otherwise a failure
 * carrying the formatted explanation. The same five functions appear a
 * second time in assert.go, returning `*Failure`; they are modelled here once.
 *
 * Go's ordered types are abstracted to a strict total order `less` with a
 * rendering `show` for `%v`; `IntLess` and `Text.LexLess` are the orders of
 * Go's integers and strings.
 */
module Be {
  import opened Text

  /** An `*Outcome`: `Pass` is nil, `Fail` carries the message. */
  datatype Outcome = Pass | Fail(message: string)

  /** `failf`: a non-nil outcome with the formatted message. */
  function Failf(message: string): (r: Outcome)
    ensures r.Fail? && r.message == message
  {
    Fail(message)
  }

  /** A strict total order, the meaning of Go's `<` on an ordered type. */
  ghost predicate StrictTotalOrder<T(!new)>(less: (T, T) -> bool)
  {
    && (forall x :: !less(x, x))
    && (forall x, y, z :: less(x, y) && less(y, z) ==> less(x, z))
    && (forall x, y :: x == y || less(x, y) || less(y, x))
  }

  predicate IntLess(a: int, b: int)
  {
    a < b
  }

  /** `Equal(want, got)`. */
  function Equal<T(==)>(want: T, got: T, show: T -> string): (r: Outcome)
    ensures r.Pass? <==> want == got
    ensures r.Fail? ==> r.message == "got " + show(got) + ", want " + show(want)
  {
    if want == got then Pass else Failf("got " + show(got) + ", want " + show(want))
  }

  /** `GreaterThan(a, b)`: passes exactly when `a > b`, that is when `b < a`. */
  function GreaterThan<T>(a: T, b: T, less: (T, T) -> bool, show: T -> string): (r: Outcome)
    ensures r.Pass? <==> less(b, a)
    ensures r.Fail? ==> r.message == show(a) + " is not greater than " + show(b)
  {
    if less(b, a) then Pass else Failf(show(a) + " is not greater than " + show(b))
  }

  /** `LessThan(a, b)`: passes exactly when `a < b`. */
  function LessThan<T>(a: T, b: T, less: (T, T) -> bool, show: T -> string): (r: Outcome)
    ensures r.Pass? <==> less(a, b)
    ensures r.Fail? ==> r.message == show(a) + " is not less than " + show(b)
  {
    if less(a, b) then Pass else Failf(show(a) + " is not less than " + show(b))
  }

  /** `GreaterThanOrEqual(a, b)`: passes exactly when `a >= b`, that is when `b < a` or `a == b`. */
  function GreaterThanOrEqual<T(==)>(a: T, b: T, less: (T, T) -> bool, show: T -> string): (r: Outcome)
    ensures r.Pass? <==> less(b, a) || a == b
    ensures r.Fail? ==> r.message == show(a) + " is not greater than or equal to " + show(b)
  {
    if less(b, a) || a == b then Pass else Failf(show(a) + " is not greater than or equal to " + show(b))
  }

  /** `LessThanOrEqual(a, b)`: passes exactly when `a <= b`, that is when `a < b` or `a == b`. */
  function LessThanOrEqual<T(==)>(a: T, b: T, less: (T, T) -> bool, show: T -> string): (r: Outcome)
    ensures r.Pass? <==> less(a, b) || a == b
    ensures r.Fail? ==> r.message == show(a) + " is not less than or equal to " + show(b)
  {
    if less(a, b) || a == b then Pass else Failf(show(a) + " is not less than or equal to " + show(b))
  }

  /** On integers the comparisons mean Go's `==`, `>`, `<`, `>=` and `<=`. */
  lemma IntComparisons(a: int, b: int)
    ensures Equal(a, b, IntToString).Pass? <==> a == b
    ensures GreaterThan(a, b, IntLess, IntToString).Pass? <==> a > b
    ensures LessThan(a, b, IntLess, IntToString).Pass? <==> a < b
    ensures GreaterThanOrEqual(a, b, IntLess, IntToString).Pass? <==> a >= b
    ensures LessThanOrEqual(a, b, IntLess, IntToString).Pass? <==> a <= b
  {
  }

  /**
   * Over a strict total order exactly one of `LessThan(a, b)` and
   * `GreaterThanOrEqual(a, b)` passes, and exactly one of `GreaterThan(a, b)`
   * and `LessThanOrEqual(a, b)`.
   */
  lemma LessThanComplementsGreaterOrEqual<T(!new)>(a: T, b: T, less: (T, T) -> bool, show: T -> string)
    requires StrictTotalOrder(less)
    ensures LessThan(a, b, less, show).Pass? != GreaterThanOrEqual(a, b, less, show).Pass?
    ensures GreaterThan(a, b, less, show).Pass? != LessThanOrEqual(a, b, less, show).Pass?
  {
  }

  /** Over a strict total order exactly one of `LessThan`, `Equal` and `GreaterThan` passes. */
  lemma Trichotomy<T(!new)>(a: T, b: T, less: (T, T) -> bool, show: T -> string)
    requires StrictTotalOrder(less)
    ensures LessThan(a, b, less, show).Pass? || Equal(a, b, show).Pass? || GreaterThan(a, b, less, show).Pass?
    ensures !(LessThan(a, b, less, show).Pass? && Equal(a, b, show).Pass?)
    ensures !(LessThan(a, b, less, show).Pass? && GreaterThan(a, b, less, show).Pass?)
    ensures !(Equal(a, b, show).Pass? && GreaterThan(a, b, less, show).Pass?)
  {
  }

  /** `GreaterThan(a, b)` and `LessThan(b, a)` agree on success; so do the non-strict pair. */
  lemma Converse<T>(a: T, b: T, less: (T, T) -> bool, show: T -> string)
    ensures GreaterThan(a, b, less, show).Pass? == LessThan(b, a, less, show).Pass?
    ensures GreaterThanOrEqual(a, b, less, show).Pass? == LessThanOrEqual(b, a, less, show).Pass?
  {
  }

  /** Go's `<` on strings is a strict total order, so the comparisons apply to strings. */
  lemma {:induction false} LexLessIsStrictTotalOrder()
    ensures StrictTotalOrder(LexLess)
  {
    forall x: string ensures !LexLess(x, x) {
      LexLessTrichotomy(x, x);
    }
    forall x: string, y: string, z: string | LexLess(x, y) && LexLess(y, z)
      ensures LexLess(x, z)
    {
      LexLessTransitive(x, y, z);
    }
    forall x: string, y: string ensures x == y || LexLess(x, y) || LexLess(y, x) {
      LexLessTrichotomy(x, y);
    }
  }

  /** The cases of be/that_test.go that must pass, and those that must fail. */
  lemma ThatTestCases()
    ensures Equal(1, 1, IntToString).Pass? && Equal("a", "a", (s: string) => s).Pass?
    ensures GreaterThan(2, 1, IntLess, IntToString).Pass?
    ensures GreaterThan("b", "a", LexLess, (s: string) => s).Pass?
    ensures LessThan(1, 2, IntLess, IntToString).Pass?
    ensures Equal(1, 2, IntToString) == Fail("got 2, want 1")
    ensures Equal("a", "2", (s: string) => s).Fail?
  {
  }
}
