/** Values of the Go language that the program relies on and Dafny does not have. */
module GoValues {

  datatype Option<+T> = None | Some(value: T)

  const MIN_INT64: int := -0x8000_0000_0000_0000
  const MAX_INT64: int := 0x7fff_ffff_ffff_ffff

  /** Go's `int` on a 64-bit platform. */
  predicate FitsInt64(n: int) {
    MIN_INT64 <= n <= MAX_INT64
  }

  /** Go's integer division truncates toward zero, Dafny's does not. */
  function TruncDiv(a: int, b: int): (q: int)
    requires b > 0
    ensures a >= 0 ==> q >= 0 && q * b <= a < (q + 1) * b
    ensures a <= 0 ==> q <= 0 && (q - 1) * b < a <= q * b
  {
    if a >= 0 then a / b else -((-a) / b)
  }

  lemma TimesMonotone(m: int, n: int, b: int)
    requires m <= n && b > 0
    ensures m * b <= n * b
  {
  }

  /** A quotient reaches `n` exactly when the divisor fits `n` times; it reaches zero from just above minus one time. */
  lemma QuotientReaches(a: int, b: int, n: int)
    requires b > 0 && n >= 1
    ensures TruncDiv(a, b) >= n <==> n * b <= a
    ensures TruncDiv(a, b) >= 0 <==> a > -b
  {
    QuotientBounds(a, b, TruncDiv(a, b), n);
  }

  lemma QuotientBounds(a: int, b: int, q: int, n: int)
    requires b > 0 && n >= 1
    requires a >= 0 ==> q >= 0 && q * b <= a < (q + 1) * b
    requires a <= 0 ==> q <= 0 && (q - 1) * b < a <= q * b
    ensures q >= n <==> n * b <= a
    ensures q >= 0 <==> a > -b
  {
    if q >= n {
      TimesMonotone(n, q, b);
    } else if q >= 0 {
      TimesMonotone(q + 1, n, b);
    } else {
      TimesMonotone(q, -1, b);
    }
  }

  /** Iteration over a Go map meets its keys in any order: some key that has not been met yet comes next. */
  method Pick<T(==)>(todo: set<T>) returns (x: T)
    requires todo != {}
    ensures x in todo
  {
    x :| x in todo;
  }

  /** A `float64` without rounding: a real number, or the not-a-number that `0/0` gives. */
  datatype Float = Num(value: real) | NaN

  const ZERO: Float := Num(0.0)

  function Add(a: Float, b: Float): Float {
    if a.NaN? || b.NaN? then NaN else Num(a.value + b.value)
  }

  function Mul(a: Float, b: Float): Float {
    if a.NaN? || b.NaN? then NaN else Num(a.value * b.value)
  }

  /** The quotient of a part by its total; the only zero total is that of an empty whole. */
  function Ratio(part: nat, total: nat): (r: Float)
    requires part <= total
    ensures r.NaN? <==> total == 0
    ensures r.Num? ==> 0.0 <= r.value <= 1.0 && r.value * total as real == part as real
  {
    if total == 0 then NaN
    else
      RatioBounds(part, total);
      Num(part as real / total as real)
  }

  lemma RatioBounds(part: nat, total: nat)
    requires part <= total && total > 0
    ensures 0.0 <= part as real / total as real <= 1.0
    ensures (part as real / total as real) * total as real == part as real
  {
  }

  /** Conversion of a finite float to `int`: the fraction is dropped. */
  function Truncate(r: real): (n: int)
    ensures r >= 0.0 ==> 0 <= n && n as real <= r < (n + 1) as real
    ensures r <= 0.0 ==> n <= 0 && (n - 1) as real < r <= n as real
  {
    if r >= 0.0 then r.Floor else -((-r).Floor)
  }

  /** Two numbers that differ by `d` may have the same whole part exactly when `d` is below two: around zero. */
  lemma TruncationThreshold(d: real)
    requires d > 0.0
    ensures (exists a: real :: Truncate(a + d) == Truncate(a)) <==> d < 2.0
  {
    if d < 2.0 {
      var a := -d / 2.0;
      assert Truncate(a + d) == 0 == Truncate(a);
    }
  }
}
