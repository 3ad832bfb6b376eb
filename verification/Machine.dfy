/** The machine's integers. */
module Machine {
  const TWO_TO_THE_64 := 0x1_0000_0000_0000_0000
  const MAX_INT64 := 0x7FFF_FFFF_FFFF_FFFF

  /** The int64 that `x` wraps around to. */
  function Wrapped(x: int): int {
    var low := x % TWO_TO_THE_64;
    if low > MAX_INT64 then low - TWO_TO_THE_64 else low
  }

  /** It is the one number in range that differs from `x` by a multiple of 2^64. */
  lemma WrappedExact(x: int)
    ensures -0x8000_0000_0000_0000 <= Wrapped(x) <= 0x7FFF_FFFF_FFFF_FFFF
    ensures (Wrapped(x) - x) % 0x1_0000_0000_0000_0000 == 0
    ensures -0x8000_0000_0000_0000 <= x <= 0x7FFF_FFFF_FFFF_FFFF ==> Wrapped(x) == x
  {
    var q := x / TWO_TO_THE_64;
    assert x == TWO_TO_THE_64 * q + x % TWO_TO_THE_64;
    var m := if x % TWO_TO_THE_64 > MAX_INT64 then -q - 1 else -q;
    assert Wrapped(x) - x == 0x1_0000_0000_0000_0000 * m;
    MultipleOf(m);
  }

  lemma MultipleOf(m: int)
    ensures (0x1_0000_0000_0000_0000 * m) % 0x1_0000_0000_0000_0000 == 0
  {}

  /** Division as Go does it: towards zero. */
  function Quotient(a: int, b: int): int
    requires b > 0
  {
    if a >= 0 then a / b else -(-a / b)
  }
}
