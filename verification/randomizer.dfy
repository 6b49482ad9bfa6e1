/** The correlated parameter randomizer of the start flow: it draws a read
    percentage, derives a target reading time linearly from it, draws the
    reading time from a window of +-15% of the time range around that target
    (clipped to the range, edges rounded inward, collapsed when inverted),
    clamps it, and draws the answered-question count independently.

    Every `Math.random()` call is a parameter `u` with `0 <= u < 1`; the
    integer offset `Math.floor(u * n)` is then a number `k` with `0 <= k < n`,
    and every such `k` is reachable (`DrawOffsetCovers`). Arithmetic is exact
    over `real`. */
module Randomizer {

  /** The configured ranges `minTime..maxTime` (minutes),
      `minPercent..maxPercent` and `minQuestions..maxQuestions`. */
  datatype Ranges = Ranges(
    minTime: int, maxTime: int,
    minPercent: int, maxPercent: int,
    minQuestions: int, maxQuestions: int)

  /** The ranges the input validator lets through. */
  predicate ValidRanges(r: Ranges) {
    && 1 <= r.minTime <= r.maxTime
    && 0 <= r.minPercent <= r.maxPercent <= 100
    && 0 <= r.minQuestions <= r.maxQuestions
  }

  /** A value `Math.random()` can return. */
  predicate IsDraw(u: real) {
    0.0 <= u < 1.0
  }

  /** The three drawn targets of one task. */
  datatype Picked = Picked(readPercent: int, readTime: int, maxQuestions: int)

  /** The fixed 30% correlation window (`timeCorrelationFactor`). */
  const TimeCorrelationFactor: real := 0.3

  function Floor(x: real): (r: int)
    ensures r as real <= x < r as real + 1.0
  {
    x.Floor
  }

  /** `Math.ceil`. */
  function Ceil(x: real): (r: int)
    ensures x <= r as real < x + 1.0
  {
    -((-x).Floor)
  }

  /** `Math.round`: halves round up. */
  function Round(x: real): (r: int)
    ensures r as real <= x + 0.5 < r as real + 1.0
  {
    (x + 0.5).Floor
  }

  function MaxReal(a: real, b: real): real { if a >= b then a else b }

  function MinReal(a: real, b: real): real { if a <= b then a else b }

  /** `Math.floor(Math.random() * n)`. */
  function DrawOffset(u: real, n: int): (k: int)
    requires IsDraw(u) && n >= 1
    ensures 0 <= k < n
  {
    assert u * n as real < n as real;
    Floor(u * n as real)
  }

  /** Every offset `k` in `[0, n)` is produced by some draw, so modelling the
      draw by `u` loses none of the outcomes an integer offset would give. */
  lemma DrawOffsetCovers(n: int, k: int)
    requires 0 <= k < n
    ensures IsDraw(k as real / n as real)
    ensures DrawOffset(k as real / n as real, n) == k
  {
    var u := k as real / n as real;
    assert u * n as real == k as real;
  }

  /** `Math.floor(Math.random() * (hi - lo + 1)) + lo`: a uniform integer of
      `[lo, hi]`. */
  function DrawBetween(u: real, lo: int, hi: int): (x: int)
    requires IsDraw(u) && lo <= hi
    ensures lo <= x <= hi
  {
    DrawOffset(u, hi - lo + 1) + lo
  }

  /** Where the drawn percentage sits in its range, 0.5 for a one-point range. */
  function RelativePosition(r: Ranges, readPercent: int): (p: real)
    requires r.minPercent <= readPercent <= r.maxPercent
    ensures 0.0 <= p <= 1.0
    ensures r.maxPercent == r.minPercent ==> p == 0.5
  {
    var percRange := r.maxPercent - r.minPercent;
    if percRange > 0 then (readPercent - r.minPercent) as real / percRange as real else 0.5
  }

  /** The time that tracks the percentage linearly. */
  function TargetTime(r: Ranges, readPercent: int): (t: real)
    requires r.minTime <= r.maxTime
    requires r.minPercent <= readPercent <= r.maxPercent
    ensures r.minTime as real <= t <= r.maxTime as real
  {
    var p := RelativePosition(r, readPercent);
    var timeRange := (r.maxTime - r.minTime) as real;
    assert p * timeRange <= timeRange by {
      assert (1.0 - p) * timeRange >= 0.0;
    }
    r.minTime as real + p * timeRange
  }

  /** Half of the correlation window: 15% of the time range. */
  function HalfWindow(r: Ranges): real {
    ((r.maxTime - r.minTime) as real * TimeCorrelationFactor) / 2.0
  }

  /** The lower edge of the clipped window, rounded up. */
  function WindowLow(r: Ranges, readPercent: int): int
    requires r.minTime <= r.maxTime
    requires r.minPercent <= readPercent <= r.maxPercent
  {
    Ceil(MaxReal(r.minTime as real, TargetTime(r, readPercent) - HalfWindow(r)))
  }

  /** The upper edge of the clipped window, rounded down, and raised to the
      lower edge when the rounding inverted the window. */
  function WindowHigh(r: Ranges, readPercent: int): (hi: int)
    requires r.minTime <= r.maxTime
    requires r.minPercent <= readPercent <= r.maxPercent
    ensures hi >= WindowLow(r, readPercent)
  {
    var lo := WindowLow(r, readPercent);
    var hi := Floor(MinReal(r.maxTime as real, TargetTime(r, readPercent) + HalfWindow(r)));
    if hi < lo then lo else hi
  }

  /** The reading time before the final clamp: a draw from the window when the
      time range is not a single point, the rounded target otherwise. */
  function PreClampTime(r: Ranges, readPercent: int, uTime: real): int
    requires r.minTime <= r.maxTime
    requires r.minPercent <= readPercent <= r.maxPercent
    requires IsDraw(uTime)
  {
    if r.maxTime - r.minTime > 0 && TimeCorrelationFactor > 0.0 then
      DrawBetween(uTime, WindowLow(r, readPercent), WindowHigh(r, readPercent))
    else
      Round(TargetTime(r, readPercent))
  }

  /** `Math.max(lo, Math.min(hi, x))`. */
  function Clamp(x: int, lo: int, hi: int): int {
    if x <= hi then (if lo >= x then lo else x) else (if lo >= hi then lo else hi)
  }

  /** The randomizer block: the drawn percentage, the correlated and clamped
      reading time, and the independently drawn question count all fall in
      their configured ranges; a one-point time range fixes the time. */
  function Randomize(r: Ranges, uPercent: real, uTime: real, uQuestions: real): (p: Picked)
    requires ValidRanges(r)
    requires IsDraw(uPercent) && IsDraw(uTime) && IsDraw(uQuestions)
    ensures r.minPercent <= p.readPercent <= r.maxPercent
    ensures r.minTime <= p.readTime <= r.maxTime
    ensures r.minQuestions <= p.maxQuestions <= r.maxQuestions
    ensures r.maxTime == r.minTime ==> p.readTime == r.minTime
    ensures r.maxPercent == r.minPercent ==> p.readPercent == r.minPercent
  {
    var readPercent := DrawBetween(uPercent, r.minPercent, r.maxPercent);
    var readTime := Clamp(PreClampTime(r, readPercent, uTime), r.minTime, r.maxTime);
    var maxQuestions := DrawBetween(uQuestions, r.minQuestions, r.maxQuestions);
    Picked(readPercent, readTime, maxQuestions)
  }

  /** When the time range is wider than a point, the pre-clamp time lies in
      `[lo, max(lo, floor(min(maxTime, t + h))))]` with
      `lo = ceil(max(minTime, t - h))`, `t` the target and `h` the half window;
      that interval is inside `[minTime, maxTime]`, so the clamp changes
      nothing. */
  lemma CorrelationWindow(r: Ranges, readPercent: int, uTime: real)
    requires ValidRanges(r) && r.maxTime > r.minTime
    requires r.minPercent <= readPercent <= r.maxPercent
    requires IsDraw(uTime)
    ensures var t := TargetTime(r, readPercent);
            var h := HalfWindow(r);
            var lo := Ceil(MaxReal(r.minTime as real, t - h));
            var hi := Floor(MinReal(r.maxTime as real, t + h));
            var x := PreClampTime(r, readPercent, uTime);
            && lo <= x <= (if lo >= hi then lo else hi)
            && r.minTime <= lo
            && (if lo >= hi then lo else hi) <= r.maxTime
            && Clamp(x, r.minTime, r.maxTime) == x
  {
    var t := TargetTime(r, readPercent);
    var h := HalfWindow(r);
    assert h >= 0.0;
    var lo := WindowLow(r, readPercent);
    assert lo as real < MaxReal(r.minTime as real, t - h) + 1.0;
    assert MaxReal(r.minTime as real, t - h) <= r.maxTime as real;
    assert lo <= r.maxTime;
  }

  /** The correlation itself: the drawn reading time stays within the half
      window of the target, up to less than one minute of rounding on the
      high side. */
  lemma TimeTracksPercentage(r: Ranges, uPercent: real, uTime: real, uQuestions: real)
    requires ValidRanges(r) && r.maxTime > r.minTime
    requires IsDraw(uPercent) && IsDraw(uTime) && IsDraw(uQuestions)
    ensures var p := Randomize(r, uPercent, uTime, uQuestions);
            var t := TargetTime(r, p.readPercent);
            t - HalfWindow(r) <= p.readTime as real < t + HalfWindow(r) + 1.0
  {
    var p := Randomize(r, uPercent, uTime, uQuestions);
    CorrelationWindow(r, p.readPercent, uTime);
    var t := TargetTime(r, p.readPercent);
    var h := HalfWindow(r);
    var lo := WindowLow(r, p.readPercent);
    assert lo as real < MaxReal(r.minTime as real, t - h) + 1.0;
  }

  /** A worked instance: with times 10..60 and percentages 0..100, drawing
      100% puts the target at 60 and the window at 52.5..67.5, so every read
      time is one of 53..60. */
  lemma FullReadWindow(minQuestions: int, maxQuestions: int, uPercent: real, uTime: real, uQuestions: real)
    requires 0 <= minQuestions <= maxQuestions
    requires IsDraw(uPercent) && IsDraw(uTime) && IsDraw(uQuestions)
    requires Randomize(Ranges(10, 60, 0, 100, minQuestions, maxQuestions), uPercent, uTime, uQuestions).readPercent == 100
    ensures 53 <= Randomize(Ranges(10, 60, 0, 100, minQuestions, maxQuestions), uPercent, uTime, uQuestions).readTime <= 60
  {
    var r := Ranges(10, 60, 0, 100, minQuestions, maxQuestions);
    assert TargetTime(r, 100) == 60.0;
    assert HalfWindow(r) == 7.5;
    assert WindowLow(r, 100) == 53;
    CorrelationWindow(r, 100, uTime);
  }
}
