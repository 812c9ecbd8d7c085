/** Values shared by the sliding viewport and the content view: an optional
    value, the edge marker a new content view starts at, the three-case
    union of neighbours, and the integer forms of the rounding that the
    navigator does on CGFloat values (offsets and widths are whole points
    here, and a width is always positive). */
module Shared {

  datatype Option<+T> = None | Some(value: T)

  /** Which edge of its document a content view is first shown at
      (BinaryLocation in the navigator). */
  datatype Location = Beginning | End

  /** "The first neighbour, the second, or both": the previous view, the
      next view, or both of them. */
  datatype Disjunction<+A, +B> =
    | First(first: A)
    | Second(second: B)
    | Both(first: A, second: B)
  {
    /** Number of values held. */
    function Count(): (n: nat)
      ensures 1 <= n <= 2
      ensures n == 2 <==> Both?
    {
      match this
      case First(_) => 1
      case Second(_) => 1
      case Both(_, _) => 2
    }
  }

  function Abs(x: int): nat { if x < 0 then -x else x }

  function Min(a: int, b: int): int { if a <= b then a else b }

  function Max(a: int, b: int): int { if a <= b then b else a }

  /** Facts about Euclidean division by a positive divisor that the
      solver does not find on its own. */
  lemma DivBounds(n: int, d: int)
    requires d > 0
    ensures d * (n / d) <= n < d * (n / d) + d
  {
  }

  /** `round(a / b)` for a positive `b`, with halves rounded away from
      zero as Foundation's `round` does: the quotient is a nearest whole
      number, and of two nearest ones the one farther from zero. */
  function RoundDiv(a: int, b: int): (q: int)
    requires b > 0
    ensures 2 * Abs(a - q * b) <= b
    ensures 2 * Abs(a - q * b) == b ==> Abs(q * b) > Abs(a)
  {
    if a >= 0 then
      var q := (2 * a + b) / (2 * b);
      RoundUpHalf(a, b, q);
      q
    else
      var p := (-2 * a + b) / (2 * b);
      RoundUpHalf(-a, b, p);
      assert (-p) * b == -(p * b);
      -p
  }

  /** The non-negative half of RoundDiv. */
  lemma RoundUpHalf(a: nat, b: int, q: int)
    requires b > 0 && q == (2 * a + b) / (2 * b)
    ensures 0 <= q
    ensures -b < 2 * (q * b - a) <= b
  {
    DivBounds(2 * a + b, 2 * b);
    var m := q * b;
    assert (2 * b) * q == 2 * m;
  }

  /** Whole multiples of a positive `b` are at least `b` apart. */
  lemma MultiplesApart(x: int, y: int, b: int)
    requires b > 0 && x < y
    ensures y * b - x * b >= b
  {
    assert y * b - x * b == (y - x) * b;
    assert (y - x) * b == (y - x - 1) * b + b;
  }

  /** A whole number of widths rounds to exactly that number. */
  lemma RoundDivExact(k: int, b: int)
    requires b > 0
    ensures RoundDiv(k * b, b) == k
  {
    var q := RoundDiv(k * b, b);
    if q < k {
      MultiplesApart(q, k, b);
    } else if q > k {
      MultiplesApart(k, q, b);
    }
  }

  /** A rounded quotient of an offset within `[0, (n-1) * b]` is a page
      index in `[0, n-1]`. */
  lemma RoundDivInRange(a: int, b: int, n: int)
    requires b > 0 && n >= 1
    requires 0 <= a <= (n - 1) * b
    ensures 0 <= RoundDiv(a, b) <= n - 1
  {
    var q := RoundDiv(a, b);
    if q < 0 {
      MultiplesApart(q, 0, b);
    } else if q > n - 1 {
      MultiplesApart(n - 1, q, b);
    }
  }

  /** `ceil(a / b)` for a positive `b`. */
  function CeilDiv(a: int, b: int): (q: int)
    requires b > 0
    ensures b * (q - 1) < a <= b * q
  {
    DivBounds(-a, b);
    -((-a) / b)
  }
}
