/** The clock a task gets back after missing its deadline.  Durations are 64-bit counts of nanoseconds. */
module Clocks {

  const MINUTE := 60_000_000_000
  const MIN_REARM := 5 * MINUTE
  const MIN_MINUTES := 1
  const MAX_MINUTES := 240

  function Max(a: int, b: int): int {
    if a >= b then a else b
  }

  function Min(a: int, b: int): int {
    if a <= b then a else b
  }

  /** What a 64-bit signed integer holds of a product. */
  function Wrap64(x: int): (w: int)
    ensures -0x8000_0000_0000_0000 <= w < 0x8000_0000_0000_0000
    ensures -0x8000_0000_0000_0000 <= x < 0x8000_0000_0000_0000 ==> w == x
  {
    (x + 0x8000_0000_0000_0000) % 0x1_0000_0000_0000_0000 - 0x8000_0000_0000_0000
  }

  function Minutes(m: int): int {
    Wrap64(m * MINUTE)
  }

  function ClampMinutes(m: int): int {
    Max(MIN_MINUTES, Min(MAX_MINUTES, m))
  }

  function Pow2(n: nat): (p: nat)
    ensures p >= 1
  {
    if n == 0 then 1 else 2 * Pow2(n - 1)
  }

  /** The allotment over two to the misses, rounded down, and never under five minutes. */
  function Window(minutes: int, expiries: int): int {
    Max(MIN_REARM, Minutes(minutes) / Pow2(Max(0, expiries)))
  }

  /** Division that drops the fraction, as the machine's does. */
  function Half(x: int): int {
    if x >= 0 then x / 2 else -((-x) / 2)
  }

  lemma AtLeastOnce(p: int, k: int)
    requires p > 0 && k >= 1
    ensures p * k >= p
  {
  }

  lemma DivBounds(x: int, p: int)
    requires p > 0
    ensures p * (x / p) <= x < p * (x / p) + p
  {
  }

  lemma SmallMultiple(p: int, k: int)
    requires p > 0 && -p < p * k < p
    ensures k == 0
  {
    if k >= 1 {
      AtLeastOnce(p, k);
    } else if k <= -1 {
      AtLeastOnce(p, -k);
    }
  }

  lemma DivUnique(x: int, p: int, q: int)
    requires p > 0 && p * q <= x < p * q + p
    ensures x / p == q
  {
    DivBounds(x, p);
    var d := x / p;
    assert p * (d - q) == p * d - p * q;
    SmallMultiple(p, d - q);
  }

  lemma DivTwice(x: int, p: int)
    requires p > 0
    ensures (x / p) / 2 == x / (2 * p)
  {
    var q := x / p;
    DivBounds(x, p);
    var r := q / 2;
    var odd := q - 2 * r;
    assert 0 <= odd <= 1;
    assert (2 * p) * r == p * (2 * r) == p * q - p * odd;
    assert p * odd == if odd == 0 then 0 else p;
    DivUnique(x, 2 * p, r);
  }

  lemma HalfAgain(x: int, n: nat)
    ensures (x / Pow2(n)) / 2 == x / Pow2(n + 1)
  {
    DivTwice(x, Pow2(n));
  }

  lemma NegativeQuotient(x: int, p: int)
    requires x < 0 && p > 0
    ensures x / p < 0
  {
    DivBounds(x, p);
    if x / p >= 1 {
      AtLeastOnce(p, x / p);
    }
  }

  lemma QuotientMonotone(x: int, y: int, p: int)
    requires x <= y && p > 0
    ensures x / p <= y / p
  {
    DivBounds(x, p);
    DivBounds(y, p);
    var d := x / p - y / p;
    assert p * d == p * (x / p) - p * (y / p);
    if d >= 1 {
      AtLeastOnce(p, d);
    }
  }

  method RearmWindow(minutes: int, expiries: int) returns (window: int)
    ensures window == Window(minutes, expiries)
  {
    hide Minutes, Pow2;
    window := Minutes(minutes);
    var start := window;
    var i := 0;
    PowZero(start);
    while i < expiries
      invariant 0 <= i <= Max(0, expiries)
      invariant start >= 0 ==> window == start / Pow2(i) && window >= 0
      invariant start < 0 ==> window <= 0
    {
      HalfAgain(start, i);
      window := Half(window);
      i := i + 1;
    }
    if start < 0 {
      NegativeQuotient(start, Pow2(i));
    }
    window := Max(MIN_REARM, window);
  }

  lemma PowZero(x: int)
    ensures x / Pow2(0) == x
  {
  }

  /** One miss more never lengthens the clock. */
  lemma {:induction false} LateMeansLess(minutes: int, few: int, many: int)
    requires few <= many
    ensures Window(minutes, many) <= Window(minutes, few)
    decreases many - few
  {
    if few < many {
      LateMeansLess(minutes, few, many - 1);
      if many > 0 {
        hide Minutes, Pow2;
        HalfAgain(Minutes(minutes), many - 1);
      }
    }
  }

  /** A longer allotment never shortens it, as far as the allotment in nanoseconds fits. */
  lemma MoreMeansMore(short: int, long: int, expiries: int)
    requires short <= long && -153722867 <= short && long <= 153722867
    ensures Window(short, expiries) <= Window(long, expiries)
  {
    QuotientMonotone(Minutes(short), Minutes(long), Pow2(Max(0, expiries)));
  }

  /** One minute further and the count wraps round: a longer allotment then gets the shortest clock. */
  lemma TooLongWraps()
    ensures Window(153722868, 0) == MIN_REARM < Window(153722867, 0)
  {
    assert Minutes(153722868) < 0 && Minutes(153722867) > MIN_REARM;
  }

  /** The clock lies between five minutes and the longer of that and the allotment. */
  lemma WindowWithin(minutes: int, expiries: int)
    requires 0 <= minutes <= 153722867
    ensures MIN_REARM <= Window(minutes, expiries) <= Max(MIN_REARM, minutes * MINUTE)
  {
    LateMeansLess(minutes, Min(0, expiries), Max(0, expiries));
    assert Window(minutes, Min(0, expiries)) == Max(MIN_REARM, minutes * MINUTE / 1);
  }

  /** Every allotment the board accepts is down to five minutes from the sixth miss on; four hours are not before. */
  lemma SixMissesSettle(minutes: int, expiries: int)
    requires MIN_MINUTES <= minutes <= MAX_MINUTES && expiries >= 6
    ensures Window(minutes, expiries) == MIN_REARM
    ensures Window(MAX_MINUTES, 5) > MIN_REARM
  {
    assert Pow2(5) == 32 && Pow2(6) == 64;
    MoreMeansMore(minutes, MAX_MINUTES, 6);
    LateMeansLess(minutes, 6, expiries);
  }
}
