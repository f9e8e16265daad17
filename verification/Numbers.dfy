/** Bounds of machine integers. */
module Numbers {
  const U128: nat := 0x1_0000_0000_0000_0000_0000_0000_0000_0000

  type Amount = x: nat | x < U128

  /** Sums of amounts wrap around as release builds do. */
  function Wrap(x: nat): Amount {
    x % U128
  }

  function Least(a: nat, b: nat): nat {
    if a <= b then a else b
  }
}
