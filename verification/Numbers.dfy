/** Integer widths, rounding and the few facts about division the rest needs. */
module Numbers {

  type byte = b: int | 0 <= b < 256

  /** A sample value. */
  type i16 = v: int | -0x8000 <= v < 0x8000

  const I32_MIN := -0x8000_0000
  const I32_MAX := 0x7fff_ffff
  const I64_MIN := -0x8000_0000_0000_0000
  const I64_MAX := 0x7fff_ffff_ffff_ffff

  predicate Fits32(v: int) { I32_MIN <= v <= I32_MAX }

  predicate Fits64(v: int) { I64_MIN <= v <= I64_MAX }

  /** A saturating 32-bit result: `i32::saturating_add` and its kin. */
  function Sat32(v: int): int {
    if v < I32_MIN then I32_MIN else if v > I32_MAX then I32_MAX else v
  }

  function Sat64(v: int): int {
    if v < I64_MIN then I64_MIN else if v > I64_MAX then I64_MAX else v
  }

  function Abs(v: int): nat { if v < 0 then -v else v }

  function Min(a: int, b: int): int { if a <= b then a else b }

  function Max(a: int, b: int): int { if a >= b then a else b }

  /** The cells of a rectangle, and where one is when the rows follow each other. */
  function Area(width: nat, height: nat): nat { width * height }

  function Index(width: nat, x: int, y: int): int { y * width + x }

  lemma MulMono(x: int, y: int, b: int)
    requires x <= y && 0 <= b
    ensures x * b <= y * b
  {
    assert 0 <= (y - x) * b;
  }

  /** The quotient and remainder are the only pair of their kind. */
  lemma DivModUnique(a: int, b: int, q: int, r: int)
    requires 0 < b && 0 <= r < b && a == q * b + r
    ensures a / b == q && a % b == r
  {
    var q', r' := a / b, a % b;
    assert a == q' * b + r';
    if q' < q {
      MulMono(q' + 1, q, b);
      assert false;
    } else if q < q' {
      MulMono(q + 1, q', b);
      assert false;
    }
  }

  lemma DivAtLeast(a: int, b: int, t: int)
    requires 0 < b
    ensures a / b >= t <==> a >= t * b
  {
    assert a == a / b * b + a % b;
    if a / b >= t {
      MulMono(t, a / b, b);
    } else {
      MulMono(a / b + 1, t, b);
    }
  }

  /** Adding less than a divisor steps the quotient by at most one. */
  lemma DivModStep(a: int, s: int, b: int)
    requires 0 < b && 0 <= s <= b
    ensures a % b + s < b ==> (a + s) / b == a / b && (a + s) % b == a % b + s
    ensures a % b + s >= b ==> (a + s) / b == a / b + 1 && (a + s) % b == a % b + s - b
  {
    assert a == a / b * b + a % b;
    if a % b + s < b {
      DivModUnique(a + s, b, a / b, a % b + s);
    } else {
      assert (a / b + 1) * b == a / b * b + b;
      DivModUnique(a + s, b, a / b + 1, a % b + s - b);
    }
  }

  /** Taking away at most a divisor steps it down by at most one. */
  lemma DivModStepDown(a: int, s: int, b: int)
    requires 0 < b && 0 <= s <= b
    ensures a % b - s >= 0 ==> (a - s) / b == a / b && (a - s) % b == a % b - s
    ensures a % b - s < 0 ==> (a - s) / b == a / b - 1 && (a - s) % b == a % b - s + b
  {
    assert a == a / b * b + a % b;
    if a % b - s >= 0 {
      DivModUnique(a - s, b, a / b, a % b - s);
    } else {
      assert (a / b - 1) * b == a / b * b - b;
      DivModUnique(a - s, b, a / b - 1, a % b - s + b);
    }
  }

  /** A multiple of the divisor moves the quotient and leaves the remainder. */
  lemma DivModShift(a: int, k: int, b: int)
    requires 0 < b
    ensures (a + k * b) / b == a / b + k && (a + k * b) % b == a % b
  {
    assert a == a / b * b + a % b;
    assert (a / b + k) * b == a / b * b + k * b;
    DivModUnique(a + k * b, b, a / b + k, a % b);
  }

  /** A remainder may be taken before an addition. */
  lemma ModAdd(a: int, d: int, b: int)
    requires 0 < b
    ensures (a + d) % b == (if a % b + d % b >= b then a % b + d % b - b else a % b + d % b)
  {
    assert d == d / b * b + d % b;
    DivModShift(a + d % b, d / b, b);
    DivModStep(a, d % b, b);
  }

  /** `ceil(n / d)` by the Euclidean quotient of the negation. */
  function CeilDiv(n: int, d: int): int
    requires 0 < d
  {
    -((-n) / d)
  }

  lemma CeilDivAtMost(n: int, d: int, i: int)
    requires 0 < d
    ensures CeilDiv(n, d) <= i <==> n <= i * d
  {
    DivAtLeast(-n, d, -i);
    assert (-i) * d == -(i * d);
  }
}
