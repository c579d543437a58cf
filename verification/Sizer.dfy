/** src/domain/trading/sizer.py: confidence to share count. */
module Sizer {
  import opened Models
  import opened Statistics

  /** Python's `round`: to the nearest integer, ties to the even one. */
  function RoundHalfEven(x: real): int {
    var low := x.Floor;
    var frac := x - low as real;
    if frac < 0.5 then low
    else if frac > 0.5 then low + 1
    else if low % 2 == 0 then low
    else low + 1
  }

  datatype ConfidenceLinear = ConfidenceLinear(minQuantity: int, maxQuantity: int, minConfidence: real) {
    /** What the constructor accepts. */
    predicate WellFormed() {
      0 < minQuantity <= maxQuantity && 0.0 <= minConfidence <= 1.0
    }

    function Span(): real {
      (maxQuantity - minQuantity) as real
    }
  }

  function ClampUnit(c: real): real {
    if c > 1.0 then 1.0 else if c < 0.0 then 0.0 else c
  }

  function Line(start: real, span: real, c: real): real {
    start + span * c
  }

  /** The size before the final clamp. */
  function Interpolated(s: ConfidenceLinear, c: real): int {
    RoundHalfEven(Line(s.minQuantity as real, s.Span(), c))
  }

  function LinearSize(s: ConfidenceLinear, confidence: real): int {
    var c := ClampUnit(confidence);
    if c < s.minConfidence then 0
    else Max(s.minQuantity, Min(s.maxQuantity, Interpolated(s, c)))
  }

  /** Rounding lands within half a share, and a tie on an even number. */
  lemma RoundingError(x: real)
    ensures -0.5 <= RoundHalfEven(x) as real - x <= 0.5
    ensures RoundHalfEven(x) as real - x in {0.5, -0.5} ==> RoundHalfEven(x) % 2 == 0
  {
  }

  lemma RoundMonotone(x: real, y: real)
    requires x <= y
    ensures RoundHalfEven(x) <= RoundHalfEven(y)
  {
    RoundingError(x);
    RoundingError(y);
  }

  /** Between the two quantities the final clamp has nothing to do. */
  lemma InterpolationInRange(s: ConfidenceLinear, c: real)
    requires s.WellFormed() && 0.0 <= c <= 1.0
    ensures s.minQuantity <= Interpolated(s, c) <= s.maxQuantity
  {
    var lo, span := s.minQuantity as real, s.Span();
    ProductNonNegative(span, c);
    ScaleMonotone(span, c, 1.0);
    assert lo <= Line(lo, span, c) <= lo + span;
    RoundMonotone(lo, Line(lo, span, c));
    RoundMonotone(Line(lo, span, c), lo + span);
  }

  lemma InterpolationMonotone(s: ConfidenceLinear, c: real, d: real)
    requires s.WellFormed() && c <= d
    ensures Interpolated(s, c) <= Interpolated(s, d)
  {
    ScaleMonotone(s.Span(), c, d);
    RoundMonotone(Line(s.minQuantity as real, s.Span(), c), Line(s.minQuantity as real, s.Span(), d));
  }

  lemma InsideTheLine(s: ConfidenceLinear, c: real)
    requires s.WellFormed() && ClampUnit(c) >= s.minConfidence
    ensures LinearSize(s, c) == RoundHalfEven(Line(s.minQuantity as real, s.Span(), ClampUnit(c)))
    ensures s.minQuantity <= LinearSize(s, c) <= s.maxQuantity
  {
    InterpolationInRange(s, ClampUnit(c));
  }

  /** A trade is skipped exactly below the confidence floor; otherwise the size is the point of the
      straight line between the two quantities, rounded to the nearest share, ties to even.  Below
      0 and above 1 a confidence counts as 0 and 1. */
  lemma LinearSizeIsRoundedLine(s: ConfidenceLinear, c: real)
    requires s.WellFormed()
    ensures var unit := if c < 0.0 then 0.0 else if c > 1.0 then 1.0 else c;
            var line := s.minQuantity as real + (s.maxQuantity - s.minQuantity) as real * unit;
            var off := LinearSize(s, c) as real - line;
            && (LinearSize(s, c) == 0 <==> unit < s.minConfidence)
            && (unit >= s.minConfidence ==>
                  && s.minQuantity <= LinearSize(s, c) <= s.maxQuantity
                  && -0.5 <= off <= 0.5 && (off == 0.5 || off == -0.5 ==> LinearSize(s, c) % 2 == 0))
  {
    var line := Line(s.minQuantity as real, s.Span(), ClampUnit(c));
    if ClampUnit(c) >= s.minConfidence { InsideTheLine(s, c); }
    RoundingError(line);
  }

  /** More confidence never gives fewer shares, and both ends of the line are reached. */
  lemma LinearSizeContract(s: ConfidenceLinear, c: real, d: real)
    requires s.WellFormed()
    ensures c <= d ==> LinearSize(s, c) <= LinearSize(s, d)
    ensures s.minConfidence == 0.0 && c <= 0.0 ==> LinearSize(s, c) == s.minQuantity
    ensures c >= 1.0 ==> LinearSize(s, c) == s.maxQuantity
  {
    InterpolationInRange(s, ClampUnit(c));
    InterpolationInRange(s, ClampUnit(d));
    if c <= d {
      InterpolationMonotone(s, ClampUnit(c), ClampUnit(d));
    }
    RoundingError(s.minQuantity as real);
    RoundingError(s.maxQuantity as real);
  }

  /** A confidence that rounds to one share below the largest quantity. */
  function NearLargest(s: ConfidenceLinear): (c: real)
    requires s.WellFormed() && s.minQuantity < s.maxQuantity
    ensures 0.0 < c < 1.0
  {
    1.0 - 0.75 / s.Span()
  }

  lemma BelowLargest(s: ConfidenceLinear)
    requires s.WellFormed() && s.minQuantity < s.maxQuantity
    ensures Interpolated(s, NearLargest(s)) == s.maxQuantity - 1
  {
    var lo, span, step := s.minQuantity as real, s.Span(), 0.75 / s.Span();
    assert step * span == 0.75;
    assert span * (1.0 - step) == span - step * span;
    assert Line(lo, span, NearLargest(s)) == (s.maxQuantity - 1) as real + 0.25;
    RoundedDown(Line(lo, span, NearLargest(s)), s.maxQuantity - 1);
  }

  lemma RoundedDown(x: real, n: int)
    requires x == n as real + 0.25
    ensures RoundHalfEven(x) == n
  {
  }

  /** The documented table says 51 for confidence 0.5 on 1..100; 50.5 is a tie, so it is 50. */
  lemma DocumentedHalfwaySizeIsOff()
    ensures LinearSize(ConfidenceLinear(1, 100, 0.0), 0.5) == 50
    ensures LinearSize(ConfidenceLinear(1, 100, 0.0), 0.3) == 31
    ensures LinearSize(ConfidenceLinear(1, 100, 0.0), 0.85) == 85
  {
  }
}
