/** The decimal library's operations, over reals: exact sums and products, rounded quotients. */
module Decimals {
  function Abs(x: real): real { if x < 0.0 then -x else x }

  function Pow10(n: nat): (p: real)
    ensures p >= 1.0
  {
    if n == 0 then 1.0 else 10.0 * Pow10(n - 1)
  }

  /** To the nearest integer, halves away from zero. */
  function Round(x: real): (r: real)
    ensures Abs(r - x) <= 0.5
  {
    if x >= 0.0 then (x + 0.5).Floor as real else -((-x + 0.5).Floor as real)
  }

  function Ceil(x: real): (c: real)
    ensures x <= c < x + 1.0
  {
    -((-x).Floor as real)
  }

  /** To the nearest multiple of 1/p. */
  function RoundTo(q: real, p: real): real
    requires p > 0.0
  {
    Round(q * p) / p
  }

  function DivRound(a: real, b: real, digits: nat): real
    requires b > 0.0
  {
    RoundTo(a / b, Pow10(digits))
  }

  /** The library's default precision is sixteen digits. */
  function Div(a: real, b: real): real
    requires b > 0.0
  {
    DivRound(a, b, 16)
  }

  /** A rounded quotient is within half a unit of the exact one. */
  lemma DivRoundNear(a: real, b: real, digits: nat)
    requires b > 0.0
    ensures Abs(DivRound(a, b, digits) - a / b) <= 0.5
  {
  }

  /** Half a unit of the last of sixteen digits. */
  const HALF := 0.00000000000000005

  lemma SixteenDigits()
    ensures Pow10(16) == 10000000000000000.0
  {
    assert Pow10(8) == 100000000.0;
    PowersAdd(8, 8);
  }

  lemma PowersAdd(m: nat, n: nat)
    ensures Pow10(m + n) == Pow10(m) * Pow10(n)
  {
    if m > 0 {
      PowersAdd(m - 1, n);
    }
  }

  /** Rounding to multiples of 1/p moves a number by at most half of one. */
  lemma RoundToWithin(q: real, p: real)
    requires p > 0.0
    ensures (q - RoundTo(q, p)) * p <= 0.5 && (RoundTo(q, p) - q) * p <= 0.5
  {
    var r := Round(q * p);
    hide Round;
    assert r / p * p == r;
    assert (q - r / p) * p == q * p - r;
  }

  /** A quotient at the default precision is within half of the sixteenth digit of the exact one. */
  lemma DivWithin(a: real, b: real)
    requires b > 0.0
    ensures -HALF <= Div(a, b) - a / b <= HALF
  {
    SixteenDigits();
    RoundToWithin(a / b, 10000000000000000.0);
    hide RoundTo, Pow10;
  }

  lemma IntOrder(m: int, n: int)
    requires m <= n
    ensures m as real <= n as real
  {
  }

  lemma FloorMonotone(x: real, y: real)
    requires x <= y
    ensures x.Floor <= y.Floor
  {
  }

  lemma RoundMonotone(x: real, y: real)
    requires x <= y
    ensures Round(x) <= Round(y)
  {
    if x >= 0.0 {
      FloorMonotone(x + 0.5, y + 0.5);
      IntOrder((x + 0.5).Floor, (y + 0.5).Floor);
    } else if y < 0.0 {
      FloorMonotone(-y + 0.5, -x + 0.5);
      IntOrder((-y + 0.5).Floor, (-x + 0.5).Floor);
    } else {
      FloorMonotone(0.5, -x + 0.5);
      FloorMonotone(0.5, y + 0.5);
      IntOrder(0, (-x + 0.5).Floor);
      IntOrder(0, (y + 0.5).Floor);
    }
  }

  lemma CeilMonotone(x: real, y: real)
    requires x <= y
    ensures Ceil(x) <= Ceil(y)
  {
    FloorMonotone(-y, -x);
    IntOrder((-y).Floor, (-x).Floor);
  }

  lemma ScaleMonotone(x: real, y: real, k: real)
    requires x <= y && k >= 0.0
    ensures x * k <= y * k
  {
  }

  lemma ScaleNear(x: real, y: real, slack: real, k: real)
    requires y - slack <= x <= y + slack && k >= 0.0
    ensures y * k - slack * k <= x * k <= y * k + slack * k
  {
    ScaleMonotone(y - slack, x, k);
    ScaleMonotone(x, y + slack, k);
  }

  lemma QuotientMonotone(x: real, y: real, b: real)
    requires x <= y && b > 0.0
    ensures x / b <= y / b
  {
  }

  lemma RoundToMonotone(x: real, y: real, p: real)
    requires x <= y && p > 0.0
    ensures RoundTo(x, p) <= RoundTo(y, p)
  {
    hide Round;
    ScaleMonotone(x, y, p);
    RoundMonotone(x * p, y * p);
    QuotientMonotone(Round(x * p), Round(y * p), p);
  }

  lemma DivMonotone(x: real, y: real, b: real)
    requires x <= y && b > 0.0
    ensures Div(x, b) <= Div(y, b)
  {
    hide RoundTo, Pow10;
    QuotientMonotone(x, y, b);
    RoundToMonotone(x / b, y / b, Pow10(16));
  }
}
