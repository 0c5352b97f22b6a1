/** Fixed-width JVM integer arithmetic on top of Dafny's unbounded `int`.
    Kotlin `Int`, `Long` and `Short` wrap around on overflow; integer division
    truncates toward zero; a `Double`/`Float` to `Int`/`Long` cast truncates toward
    zero and saturates at the type's bounds. */
module JvmInt {

  const INT_MIN: int := -0x8000_0000
  const INT_MAX: int := 0x7fff_ffff
  const LONG_MIN: int := -0x8000_0000_0000_0000
  const LONG_MAX: int := 0x7fff_ffff_ffff_ffff
  const SHORT_MIN: int := -0x8000
  const SHORT_MAX: int := 0x7fff

  predicate IsInt(x: int) { INT_MIN <= x <= INT_MAX }
  predicate IsLong(x: int) { LONG_MIN <= x <= LONG_MAX }
  predicate IsShort(x: int) { SHORT_MIN <= x <= SHORT_MAX }

  /** Kotlin `Int` arithmetic result: wrap to 32 bits. */
  function Wrap32(x: int): (r: int)
    ensures IsInt(r)
    ensures (x - r) % 0x1_0000_0000 == 0
    ensures IsInt(x) ==> r == x
  {
    var u := x % 0x1_0000_0000;
    if u <= INT_MAX then u else u - 0x1_0000_0000
  }

  /** Kotlin `Long` arithmetic result: wrap to 64 bits. */
  function Wrap64(x: int): (r: int)
    ensures IsLong(r)
    ensures (x - r) % 0x1_0000_0000_0000_0000 == 0
    ensures IsLong(x) ==> r == x
  {
    var u := x % 0x1_0000_0000_0000_0000;
    if u <= LONG_MAX then u else u - 0x1_0000_0000_0000_0000
  }

  /** `Int.toShort()`: keep the low 16 bits, as a signed value. */
  function Wrap16(x: int): (r: int)
    ensures IsShort(r)
    ensures (x - r) % 0x1_0000 == 0
    ensures IsShort(x) ==> r == x
  {
    var u := x % 0x1_0000;
    if u <= SHORT_MAX then u else u - 0x1_0000
  }

  /** Integer division truncating toward zero, as on the JVM (`b > 0`). */
  function TruncDiv(a: int, b: int): (q: int)
    requires b > 0
    ensures a >= 0 ==> q == a / b
    ensures a < 0 ==> q == -((-a) / b)
  {
    if a >= 0 then a / b else -((-a) / b)
  }

  /** A real truncated toward zero. */
  function Trunc(x: real): (r: int)
    ensures x >= 0.0 ==> r as real <= x < r as real + 1.0
    ensures x < 0.0 ==> r as real - 1.0 < x <= r as real
  {
    if x >= 0.0 then x.Floor else -((-x).Floor)
  }

  /** `Double.toInt()` / `Float.toInt()` for a finite value: truncate, then saturate. */
  function DoubleToInt(x: real): (r: int)
    ensures IsInt(r)
    ensures IsInt(Trunc(x)) ==> r == Trunc(x)
  {
    var t := Trunc(x);
    if t < INT_MIN then INT_MIN else if t > INT_MAX then INT_MAX else t
  }

  /** `Double.toLong()` for a finite value: truncate, then saturate. */
  function DoubleToLong(x: real): (r: int)
    ensures IsLong(r)
    ensures IsLong(Trunc(x)) ==> r == Trunc(x)
  {
    var t := Trunc(x);
    if t < LONG_MIN then LONG_MIN else if t > LONG_MAX then LONG_MAX else t
  }

  lemma MulMonotone(a: int, b: int, c: int)
    requires a <= b && c >= 0
    ensures a * c <= b * c
  {
    assert (b - a) * c >= 0;
  }

  lemma MulSucc(a: int, c: int)
    ensures (a + 1) * c == a * c + c
  {
  }

  /** Euclidean division is determined by quotient and remainder. */
  lemma DivUnique(x: int, c: int, i: int, k: int)
    requires c > 0 && 0 <= k < c && x == i * c + k
    ensures x / c == i && x % c == k
  {
    var q, r := x / c, x % c;
    assert x == q * c + r;
    if q > i {
      MulMonotone(i + 1, q, c);
      MulSucc(i, c);
    } else if q < i {
      MulMonotone(q + 1, i, c);
      MulSucc(q, c);
    }
  }
}
