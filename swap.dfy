/** The three `swap` functions of the pointer exercise. Each takes two
    `&mut i32`; the borrow rules make the two references distinct, so each
    is modelled on two distinct `i32` variables held as cells. */
module Swap {

  /** A mutable `i32` variable that a `&mut` reference points to. */
  class Cell {
    var value: int

    constructor New(v: int)
      ensures value == v
    {
      value := v;
    }
  }

  /** `swap`: exchanges the two values through a temporary. */
  method Swap(a: Cell, b: Cell)
    requires a != b
    modifies a, b
    ensures a.value == old(b.value) && b.value == old(a.value)
  {
    var temp := a.value;
    a.value := b.value;
    b.value := temp;
  }

  /** `swap_rust_way`: `std::mem::swap` exchanges the two values. */
  method SwapRustWay(a: Cell, b: Cell)
    requires a != b
    modifies a, b
    ensures a.value == old(b.value) && b.value == old(a.value)
  {
    a.value, b.value := b.value, a.value;
  }

  /** `swap_tuple`: `(*a, *b) = (*b, *a)` reads both before writing. */
  method SwapTuple(a: Cell, b: Cell)
    requires a != b
    modifies a, b
    ensures a.value == old(b.value) && b.value == old(a.value)
  {
    var (first, second) := (b.value, a.value);
    a.value := first;
    b.value := second;
  }

  /** The sequence `main` runs on `x = 123, y = 456`: `swap` exchanges the
      values, `swap_rust_way` exchanges them back, `swap_tuple` exchanges
      them again. */
  method SwapSequence() returns (x: Cell, y: Cell)
    ensures x.value == 456 && y.value == 123
  {
    x := new Cell.New(123);
    y := new Cell.New(456);
    Swap(x, y);
    assert x.value == 456 && y.value == 123;
    SwapRustWay(x, y);
    assert x.value == 123 && y.value == 456;
    SwapTuple(x, y);
  }
}
