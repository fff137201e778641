/** Go's fixed-width integer types, the int64 wrap-around of its multiplication,
    and its `error` values, as the disk-record layer sees them. */
module GoInts {

  const TWO_63: int := 0x8000_0000_0000_0000
  const TWO_64: int := 0x1_0000_0000_0000_0000
  const MAX_INT64: int := TWO_63 - 1
  const MIN_INT64: int := -TWO_63
  const MAX_UINT64: int := TWO_64 - 1

  /** Go `int64`. */
  type Int64 = x: int | -0x8000_0000_0000_0000 <= x < 0x8000_0000_0000_0000

  /** Go `int32` (the rotational speed reported by the storage library). */
  type Int32 = x: int | -0x8000_0000 <= x < 0x8000_0000

  /** Go `uint32` (the link speed reported by the storage library). */
  type Uint32 = x: int | 0 <= x < 0x1_0000_0000

  /** A Go `error`: `nil`, or an error carrying its message. */
  datatype GoError = Nil | Error(message: string)

  /** A Go `(value, error)` pair where the value is meaningful only without error. */
  datatype Result<T> = Ok(value: T) | Err(message: string)

  /** The int64 that a mathematical integer lands on in Go's two's-complement
      arithmetic: it agrees with `x` modulo 2^64, and it is `x` itself whenever
      `x` fits. */
  function WrapInt64(x: int): (r: Int64)
    ensures (x - r) % TWO_64 == 0
    ensures MIN_INT64 <= x <= MAX_INT64 ==> r == x
  {
    var y := x + TWO_63;
    var q := y / TWO_64;
    assert x - ((y % TWO_64) - TWO_63) == q * TWO_64;
    (y % TWO_64) - TWO_63
  }

  /** Go's `a * b` on int64 operands: congruent to the exact product modulo
      2^64, and the exact product whenever that fits. */
  function MulInt64(a: Int64, b: Int64): (r: Int64)
    ensures (a * b - r) % TWO_64 == 0
    ensures MIN_INT64 <= a * b <= MAX_INT64 ==> r == a * b
  {
    WrapInt64(a * b)
  }

  /** `base` raised to the power `k`. */
  function Pow(base: nat, k: nat): (p: nat)
    ensures base > 0 ==> p > 0
  {
    if k == 0 then 1 else base * Pow(base, k - 1)
  }

  /** A larger exponent of a positive base gives a power at least as large. */
  lemma {:induction false} PowMonotonic(base: nat, a: nat, b: nat)
    requires base > 0 && a <= b
    ensures Pow(base, a) <= Pow(base, b)
    decreases b
  {
    if a < b {
      PowMonotonic(base, a, b - 1);
      MulMonotonic(1, base, Pow(base, b - 1));
    }
  }

  /** Multiplying by a natural number keeps the order. */
  lemma MulMonotonic(a: nat, b: nat, c: nat)
    requires a <= b
    ensures a * c <= b * c
  {
  }

  /** The quotient is the one `q` with `b == q * d + r` and `0 <= r < d`. */
  lemma DivUnique(b: int, d: int, q: int, r: int)
    requires d > 0 && 0 <= r < d && b == q * d + r
    ensures b / d == q
  {
    var q0, r0 := b / d, b % d;
    assert b == q0 * d + r0;
    assert (q - q0) * d == r0 - r;
    if q > q0 {
      MulMonotonic(1, q - q0, d);
    } else if q < q0 {
      MulMonotonic(1, q0 - q, d);
    }
  }

  /** A multiple of a positive `d` leaves no remainder. */
  lemma MultipleMod(q: int, d: int)
    requires d > 0
    ensures (q * d) % d == 0
  {
    DivUnique(q * d, d, q, 0);
  }
}
