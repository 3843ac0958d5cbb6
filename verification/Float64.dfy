/** Non-negative float64 arithmetic as Go does it on seconds: each operation rounds its exact result to 53 bits, ties to
    even. The values here stay between a nanosecond and 2^65 seconds, so nothing overflows or underflows.
 */
module Float64 {
  const TWO52: real := 4503599627370496.0
  const TWO53: real := 9007199254740992.0

  /** The coarsest spacing considered, and the values it reaches. */
  const TOP: real := 4096.0
  const LIMIT: real := 36893488147419103232.0

  // ----- Rounding to an integer, ties to even ---------------------------------------------------

  ghost function Nearest(z: real): (n: int)
    ensures -0.5 <= z - n as real <= 0.5
  {
    var n := z.Floor;
    var d := z - n as real;
    if d < 0.5 then n else if d > 0.5 then n + 1 else if n % 2 == 0 then n else n + 1
  }

  lemma NearestMonotone(y: real, z: real)
    requires y <= z
    ensures Nearest(y) <= Nearest(z)
  {
  }

  lemma NearestOfInt(n: int)
    ensures Nearest(n as real) == n
  {
  }

  // ----- Spacing --------------------------------------------------------------------------------

  lemma ProductSign(a: real, b: real)
    requires b > 0.0
    ensures a <= 0.0 ==> a * b <= 0.0
    ensures a < 0.0 ==> a * b < 0.0
  {
  }

  lemma QuotientIs(a: real, x: real, q: real)
    requires x > 0.0 && q * x == a
    ensures a / x == q
  {
    assert (a / x) * x == a;
    ProductSign(a / x - q, x);
    ProductSign(q - a / x, x);
    assert (a / x - q) * x == 0.0;
  }

  lemma Halving(a: real, x: real)
    requires x > 0.0 && a > x
    ensures ((a / 2.0) / x).Floor < (a / x).Floor
  {
    var q := a / x;
    assert q * x == a;
    QuotientIs(a / 2.0, x, q / 2.0);
    ProductSign(q - 1.0, x);
    assert (q - 1.0) * x == a - x;
  }

  /** The distance between neighbouring float64 values around x: u, u/2, u/4, ... until x has 53 bits. */
  ghost function Ulp(x: real, u: real): (r: real)
    requires 0.0 < x < TWO53 * u
    ensures 0.0 < r <= u && TWO52 * r <= x < TWO53 * r
    decreases (TWO52 * u / x).Floor
  {
    if TWO52 * u <= x then u
    else
      Halving(TWO52 * u, x);
      Ulp(x, u / 2.0)
  }

  /** Larger values are spaced at least as widely, and a different spacing is at least twice as wide. */
  lemma {:induction false} UlpMonotone(x: real, y: real, u: real)
    requires 0.0 < x <= y < TWO53 * u
    ensures Ulp(x, u) == Ulp(y, u) || 2.0 * Ulp(x, u) <= Ulp(y, u)
    decreases (TWO52 * u / x).Floor
  {
    if TWO52 * u > x {
      Halving(TWO52 * u, x);
      if TWO52 * u > y {
        UlpMonotone(x, y, u / 2.0);
      }
    }
  }

  /** u halved k times. */
  ghost function Half(u: real, k: nat): (r: real)
    requires u > 0.0
    ensures 0.0 < r <= u
    decreases k
  {
    if k == 0 then u else Half(u / 2.0, k - 1)
  }

  /** The spacing is the one halving of u that gives x 53 bits. */
  lemma {:induction false} UlpIs(x: real, u: real, k: nat)
    requires u > 0.0 && 0.0 < x < TWO53 * u && TWO52 * Half(u, k) <= x < TWO53 * Half(u, k)
    ensures Ulp(x, u) == Half(u, k)
    decreases k
  {
    if k > 0 {
      UlpIs(x, u / 2.0, k - 1);
    }
  }

  lemma {:induction false} UlpIsHalving(x: real, u: real) returns (k: nat)
    requires 0.0 < x < TWO53 * u
    ensures Ulp(x, u) == Half(u, k)
    decreases (TWO52 * u / x).Floor
  {
    if TWO52 * u <= x {
      k := 0;
    } else {
      Halving(TWO52 * u, x);
      var j := UlpIsHalving(x, u / 2.0);
      k := j + 1;
    }
  }

  function Pow2(n: nat): nat {
    if n == 0 then 1 else 2 * Pow2(n - 1)
  }

  lemma {:induction false} HalfTimesPow(u: real, k: nat)
    requires u > 0.0
    ensures Half(u, k) * Pow2(k) as real == u
    decreases k
  {
    if k > 0 {
      HalfTimesPow(u / 2.0, k - 1);
      Doubled(Half(u, k), Pow2(k - 1));
    }
  }

  lemma {:induction false} Pow2Sum(m: nat, n: nat)
    ensures Pow2(m + n) == Pow2(m) * Pow2(n)
  {
    if m > 0 {
      Pow2Sum(m - 1, n);
      TwiceProduct(Pow2(m - 1), Pow2(n));
    }
  }

  lemma TwiceProduct(a: nat, b: nat)
    ensures 2 * (a * b) == (2 * a) * b
  {
  }

  lemma Doubled(h: real, p: nat)
    ensures h * (2 * p) as real == 2.0 * (h * p as real)
  {
    assert (2 * p) as real == 2.0 * p as real;
  }

  lemma {:induction false} HalfInTwoSteps(u: real, j: nat, k: nat)
    requires u > 0.0
    ensures Half(u, j + k) == Half(Half(u, j), k)
    decreases j
  {
    if j > 0 {
      HalfInTwoSteps(u / 2.0, j - 1, k);
    }
  }

  // ----- Rounding to a multiple of u ------------------------------------------------------------

  ghost function Snap(x: real, u: real): real
    requires u > 0.0
  {
    Nearest(x / u) as real * u
  }

  lemma QuotientMonotone(x: real, y: real, u: real)
    requires u > 0.0 && x <= y
    ensures x / u <= y / u
  {
    var p, q := x / u, y / u;
    assert p * u == x && q * u == y;
    ProductSign(q - p, u);
    assert (q - p) * u == y - x;
  }

  lemma ProductMonotone(a: real, b: real, u: real)
    requires a <= b && u > 0.0
    ensures a * u <= b * u
  {
    ProductSign(a - b, u);
    assert (a - b) * u == a * u - b * u;
  }

  lemma SnapMonotone(x: real, y: real, u: real)
    requires u > 0.0 && x <= y
    ensures Snap(x, u) <= Snap(y, u)
  {
    QuotientMonotone(x, y, u);
    NearestMonotone(x / u, y / u);
    ProductMonotone(Nearest(x / u) as real, Nearest(y / u) as real, u);
  }

  lemma SnapOfMultiple(y: real, n: int, u: real)
    requires u > 0.0 && n as real * u == y
    ensures Snap(y, u) == y
  {
    QuotientIs(y, u, n as real);
    NearestOfInt(n);
  }

  lemma SnapNear(x: real, n: int, u: real)
    requires u > 0.0 && -u < 2.0 * (x - n as real * u) < u
    ensures Snap(x, u) == n as real * u
  {
    var q := x / u;
    var d := q - n as real;
    assert q * u == x;
    assert d * u == x - n as real * u;
    StrictlyInside(d, u);
    assert q.Floor == n || q.Floor == n - 1;
  }

  lemma StrictlyInside(d: real, u: real)
    requires u > 0.0 && -u < 2.0 * (d * u) < u
    ensures -0.5 < d < 0.5
  {
    assert (0.0 - d) * u == -(d * u);
    if d >= 0.5 {
      ProductMonotone(0.5, d, u);
    }
    if d <= -0.5 {
      ProductMonotone(0.5, 0.0 - d, u);
    }
  }

  lemma SnapError(x: real, u: real)
    requires u > 0.0
    ensures -u <= 2.0 * (Snap(x, u) - x) <= u
  {
    ScaledError(Nearest(x / u) as real, x / u, u, Snap(x, u), x);
  }

  lemma ScaledError(n: real, z: real, u: real, p: real, x: real)
    requires u > 0.0 && -0.5 <= z - n <= 0.5 && n * u == p && z * u == x
    ensures -u <= 2.0 * (p - x) <= u
  {
    assert (z - n) * u == x - p;
    assert (n - z) * u == p - x;
    AtMostHalf(z - n, u, x - p);
    AtMostHalf(n - z, u, p - x);
  }

  lemma AtMostHalf(d: real, u: real, e: real)
    requires d <= 0.5 && u > 0.0 && d * u == e
    ensures 2.0 * e <= u
  {
    ProductMonotone(d, 0.5, u);
  }

  // ----- Rounding -------------------------------------------------------------------------------

  ghost function Round(x: real): (r: real)
    requires x < LIMIT
    ensures x <= 0.0 ==> r == 0.0
  {
    if x <= 0.0 then 0.0 else Snap(x, Ulp(x, TOP))
  }

  /** Rounding with a known spacing. */
  lemma RoundAt(x: real, k: nat)
    requires 0.0 < x < LIMIT && TWO52 * Half(TOP, k) <= x < TWO53 * Half(TOP, k)
    ensures Round(x) == Snap(x, Half(TOP, k))
  {
    UlpIs(x, TOP, k);
  }

  /** r differs from x by at most so many parts in 2^53 of x. */
  ghost predicate Within(r: real, x: real, parts: real) {
    -parts * x <= (r - x) * 9007199254740992.0 <= parts * x
  }

  /** The error is at most half a spacing, which is at most x / 2^53. */
  lemma RoundError(x: real)
    requires 0.0 <= x < LIMIT
    ensures Within(Round(x), x, 1.0) && Round(x) >= 0.0
  {
    if x > 0.0 {
      SnapError(x, Ulp(x, TOP));
    }
  }

  lemma RangesApart(a: real, u: real, w: real, b: real)
    requires a <= TWO53 * u && 2.0 * u <= w && TWO52 * w <= b
    ensures a <= b
  {
  }

  lemma RoundMonotone(x: real, y: real)
    requires x <= y < LIMIT
    ensures Round(x) <= Round(y)
  {
    if x > 0.0 {
      UlpMonotone(x, y, TOP);
      if Ulp(x, TOP) == Ulp(y, TOP) {
        SnapMonotone(x, y, Ulp(x, TOP));
      } else {
        RoundBelowNext(x);
        RoundAboveStart(y);
        RangesApart(Round(x), Ulp(x, TOP), Ulp(y, TOP), Round(y));
      }
    } else if y > 0.0 {
      RoundError(y);
    }
  }

  /** Rounding stays within the range of one spacing, its upper end included. */
  lemma RoundBelowNext(x: real)
    requires 0.0 < x < LIMIT
    ensures Round(x) <= TWO53 * Ulp(x, TOP)
  {
    var u := Ulp(x, TOP);
    SnapMonotone(x, 9007199254740992 as real * u, u);
    SnapOfMultiple(9007199254740992 as real * u, 9007199254740992, u);
  }

  lemma RoundAboveStart(y: real)
    requires 0.0 < y < LIMIT
    ensures TWO52 * Ulp(y, TOP) <= Round(y)
  {
    var u := Ulp(y, TOP);
    SnapMonotone(4503599627370496 as real * u, y, u);
    SnapOfMultiple(4503599627370496 as real * u, 4503599627370496, u);
  }

  /** Two spacings that fit one value up to the end of its range: the same, or the next one at that end. */
  lemma NextSpacing(y: real, u: real, w: real)
    requires u > 0.0 && TWO52 * u <= y <= TWO53 * u && TWO52 * w <= y < TWO53 * w
    requires w == u || 2.0 * w <= u || 2.0 * u <= w
    ensures w == u || (w == 2.0 * u && y == TWO53 * u)
  {
  }

  lemma Nested(x: real, y: real)
    requires 0.0 < x < LIMIT && 0.0 < y < LIMIT
    ensures var u, w := Ulp(x, TOP), Ulp(y, TOP); w == u || 2.0 * w <= u || 2.0 * u <= w
  {
    if x <= y {
      UlpMonotone(x, y, TOP);
    } else {
      UlpMonotone(y, x, TOP);
    }
  }

  /** A multiple of the spacing of some x, within the range of that spacing, is exact. */
  lemma GridIsExact(x: real, y: real)
    requires 0.0 < x < LIMIT && y < LIMIT && Snap(y, Ulp(x, TOP)) == y
    requires TWO52 * Ulp(x, TOP) <= y <= TWO53 * Ulp(x, TOP)
    ensures Round(y) == y
  {
    Nested(x, y);
    NextSpacing(y, Ulp(x, TOP), Ulp(y, TOP));
    if Ulp(y, TOP) != Ulp(x, TOP) {
      SnapOfMultiple(y, 4503599627370496, Ulp(y, TOP));
    }
  }

  /** Rounding twice is rounding once. */
  lemma RoundTwice(x: real)
    requires x < LIMIT && Round(x) < LIMIT
    ensures Round(Round(x)) == Round(x)
  {
    if x > 0.0 {
      RoundBelowNext(x);
      RoundAboveStart(x);
      SnapTwice(x, Ulp(x, TOP));
      GridIsExact(x, Round(x));
    }
  }

  lemma SnapTwice(x: real, u: real)
    requires u > 0.0
    ensures Snap(Snap(x, u), u) == Snap(x, u)
  {
    SnapOfMultiple(Snap(x, u), Nearest(x / u), u);
  }

  /** Whole numbers of up to 53 bits are exact. */
  lemma WholeIsExact(n: nat)
    requires n as real < TWO53
    ensures Round(n as real) == n as real
  {
    var x := n as real;
    if n > 0 {
      var p := WholeSpacing(x);
      SnapOfWhole(n, Ulp(x, TOP), p);
    }
  }

  /** Below 2^53 the spacing divides one. */
  lemma WholeSpacing(x: real) returns (p: nat)
    requires 0.0 < x < TWO53
    ensures Ulp(x, TOP) * p as real == 1.0
  {
    var k := UlpIsHalving(x, TOP);
    SmallSpacing(Ulp(x, TOP), k);
    HalfInTwoSteps(TOP, 12, k - 12);
    assert Half(TOP, 12) == 1.0;
    HalfTimesPow(1.0, k - 12);
    p := Pow2(k - 12);
  }

  lemma SnapOfWhole(n: nat, u: real, p: nat)
    requires u > 0.0 && u * p as real == 1.0
    ensures Snap(n as real, u) == n as real
  {
    assert (n * p) as real == n as real * p as real;
    SnapOfMultiple(n as real, n * p, u);
  }

  lemma {:induction false} SmallSpacing(u: real, k: nat)
    requires u == Half(TOP, k) && u < 2.0
    ensures k >= 12
  {
    if k < 12 {
      HalfInTwoSteps(TOP, k, 11 - k);
    }
    assert Half(TOP, 11) == 2.0;
  }

  // ----- What the rest needs to know ------------------------------------------------------------

  const BOUND: real := 1000000000000.0

  /** Rounding of float64, on all numbers. */
  ghost function RoundToFloat64(x: real): real {
    if x < LIMIT then Round(x) else x
  }

  ghost predicate Ordered(rnd: real -> real, x: real, y: real) {
    rnd(x) <= rnd(y)
  }

  ghost predicate Close(rnd: real -> real, x: real) {
    Within(rnd(x), x, 1.0) && rnd(x) >= 0.0
  }

  ghost predicate Fixed(rnd: real -> real, x: real) {
    rnd(rnd(x)) == rnd(x)
  }

  /** Monotone, off by at most one part in 2^53, idempotent, and exact at 0 and 1. */
  ghost predicate IsRounding(rnd: real -> real) {
    && (forall x, y :: 0.0 <= x <= y <= BOUND ==> Ordered(rnd, x, y))
    && (forall x :: 0.0 <= x <= BOUND ==> Close(rnd, x))
    && (forall x :: 0.0 <= x <= BOUND ==> Fixed(rnd, x))
    && rnd(0.0) == 0.0 && rnd(1.0) == 1.0
  }

  lemma RoundedTwice(x: real)
    requires 0.0 <= x <= BOUND
    ensures RoundToFloat64(RoundToFloat64(x)) == RoundToFloat64(x)
  {
    RoundMonotone(x, BOUND);
    WholeIsExact(1_000_000_000_000);
    RoundTwice(x);
  }

  lemma Float64Rounds()
    ensures IsRounding(RoundToFloat64)
  {
    WholeIsExact(1);
    forall x, y | 0.0 <= x <= y <= BOUND ensures Ordered(RoundToFloat64, x, y) {
      RoundMonotone(x, y);
    }
    forall x | 0.0 <= x <= BOUND ensures Close(RoundToFloat64, x) {
      RoundError(x);
    }
    forall x | 0.0 <= x <= BOUND ensures Fixed(RoundToFloat64, x) {
      RoundedTwice(x);
    }
  }
}
