/** The `max2!` and `max3!` macros of the extended definitions file.
    `max2!` binds both arguments once and keeps the first only when it is
    strictly greater, so on a tie it yields the second; `max3!` nests
    `max2!`. */
module Macros {

  /** `max2!(x, y)`: `if x > y { x } else { y }`. */
  function Max2(x: int, y: int): (r: int)
    ensures r >= x && r >= y
    ensures r == x || r == y
    ensures x == y ==> r == y
  {
    if x > y then x else y
  }

  /** `max3!(x, y, z)`: `max2!(max2!(x, y), z)`. */
  function Max3(x: int, y: int, z: int): (r: int)
    ensures r >= x && r >= y && r >= z
    ensures r == x || r == y || r == z
  {
    Max2(Max2(x, y), z)
  }

  /** The maximum does not depend on argument order, so `max3!` is the
      maximum however its arguments are listed. */
  lemma MaxOrderIndependent(x: int, y: int, z: int)
    ensures Max2(x, y) == Max2(y, x)
    ensures Max3(x, y, z) == Max3(z, y, x) == Max3(y, z, x)
    ensures Max3(x, y, z) == Max2(x, Max2(y, z))
  {
  }

  /** `max3!` is the least upper bound: any bound on all three arguments
      bounds it too. */
  lemma Max3Least(x: int, y: int, z: int, b: int)
    requires b >= x && b >= y && b >= z
    ensures Max3(x, y, z) <= b
  {
  }

  /** The examples `main` prints. */
  lemma MacroExamples()
    ensures Max2(5, 3) == 5 && Max2(-2, -5) == -2 && Max2(0, 0) == 0
    ensures Max3(1, 2, 3) == 3 && Max3(3, 2, 1) == 3 && Max3(2, 3, 1) == 3
    ensures Max3(-1, -2, -3) == -1 && Max3(5, 5, 5) == 5
  {
  }
}
