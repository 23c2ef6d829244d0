/** The recursive factorial exercise. `factorial(n: u32) -> u64` multiplies
    in `u64`, so the result is the exact factorial only while it fits in 64
    bits; a larger product overflows, which a checked build stops with a
    panic. The model keeps the exact factorial and the checked `u64`
    computation apart and proves where they agree. */
module Factorial {
  import opened Wrappers

  /** 2^64: the first value a `u64` cannot hold. */
  const U64Limit: nat := 0x1_0000_0000_0000_0000

  /** The range of the `u32` argument. */
  predicate IsU32(n: int) {
    0 <= n < 0x1_0000_0000
  }

  /** The mathematical factorial with the program's base case `n <= 1`. */
  function Fact(n: nat): (r: nat)
    ensures r >= 1
    ensures n >= 1 ==> r >= n
  {
    if n <= 1 then 1 else n * Fact(n - 1)
  }

  /** `factorial(n)` evaluated in `u64`: `None` stands for the overflow of
      `n as u64 * factorial(n - 1)` at the first level where the product
      reaches 2^64. */
  function FactorialU64(n: nat): (r: Option<nat>)
    requires IsU32(n)
    ensures r.Some? ==> r.value < U64Limit
  {
    if n <= 1 then Some(1)
    else
      match FactorialU64(n - 1)
      case None => None
      case Some(f) => if n * f < U64Limit then Some(n * f) else None
  }

  /** `factorial_with_steps(n, depth)`: the same recursion, with `depth`
      only steering the indentation of the trace it prints. */
  function FactorialWithSteps(n: nat, depth: nat): (r: Option<nat>)
    requires IsU32(n)
  {
    if n <= 1 then Some(1)
    else
      match FactorialWithSteps(n - 1, depth + 1)
      case None => None
      case Some(f) => if n * f < U64Limit then Some(n * f) else None
  }

  /** The traced version returns what `factorial` returns, at any depth. */
  lemma {:induction false} WithStepsAgrees(n: nat, depth: nat)
    requires IsU32(n)
    ensures FactorialWithSteps(n, depth) == FactorialU64(n)
  {
    if n > 1 {
      WithStepsAgrees(n - 1, depth + 1);
    }
  }

  /** Multiplying by a positive factor does not shrink a natural number. */
  lemma MulAtLeast(a: nat, b: nat)
    requires a >= 1
    ensures a * b >= b
  {
    assert a * b == (a - 1) * b + b;
  }

  /** The factorial grows: `m <= n` implies `m! <= n!`. */
  lemma {:induction false} FactMonotone(m: nat, n: nat)
    requires m <= n
    ensures Fact(m) <= Fact(n)
  {
    if m < n {
      FactMonotone(m, n - 1);
      MulAtLeast(n, Fact(n - 1));
    }
  }

  /** 20! is the last factorial below 2^64, 21! the first above. */
  lemma FactTwentyBounds()
    ensures Fact(20) == 2432902008176640000 && Fact(20) < U64Limit
    ensures Fact(21) >= U64Limit
  {
    assert Fact(5) == 120;
    assert Fact(10) == 3628800;
    assert Fact(15) == 1307674368000;
    assert Fact(20) == 2432902008176640000;
  }

  /** The `u64` computation is exact up to 20 and overflows from 21 on —
      the bound behind the warning `main` prints for inputs above 20. */
  lemma {:induction false} FactorialU64Exact(n: nat)
    requires IsU32(n)
    ensures n <= 20 ==> FactorialU64(n) == Some(Fact(n))
    ensures n > 20 ==> FactorialU64(n) == None
  {
    if n > 1 {
      FactorialU64Exact(n - 1);
      FactTwentyBounds();
      if n <= 20 {
        FactMonotone(n, 20);
      } else if n == 21 {
        assert FactorialU64(20) == Some(Fact(20));
      }
    }
  }

  /** Rows of the table `main` prints for 0 to 10. */
  lemma FactorialExamples()
    ensures FactorialU64(0) == Some(1) && FactorialU64(1) == Some(1)
    ensures FactorialU64(5) == Some(120) && FactorialU64(6) == Some(720)
    ensures FactorialU64(10) == Some(3628800)
  {
    FactorialU64Exact(5);
    FactorialU64Exact(6);
    FactorialU64Exact(10);
    assert Fact(6) == 720;
    assert Fact(10) == 3628800;
  }
}
