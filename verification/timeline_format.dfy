/**
 * The axis and tooltip labels of the per-video timeline (formatTimelineTick and
 * formatTimelineTooltip in the dashboard page): a value in seconds shown in the unit of
 * the timeline's granularity, rounded to the nearest whole unit.
 */
module TimelineFormat {
  import opened Arith
  import opened Text
  import opened TimelinePlan

  /** How many seconds one unit of the granularity spans. */
  function UnitSeconds(g: Granularity): nat
  {
    match g
    case Seconds => 1
    case Minutes => 60
    case Hours => 3600
  }

  /** The letter an axis caption ends with. */
  function UnitSuffix(g: Granularity): char
  {
    match g
    case Seconds => 's'
    case Minutes => 'm'
    case Hours => 'h'
  }

  /** The word a tooltip caption starts with. */
  function UnitWord(g: Granularity): string
  {
    match g
    case Seconds => "Second"
    case Minutes => "Minute"
    case Hours => "Hour"
  }

  /** n is value / unit rounded to the nearest integer, halves rounded up (Math.round). */
  ghost predicate RoundsTo(value: nat, unit: nat, n: nat)
  {
    2 * unit * n <= 2 * value + unit < 2 * unit * n + 2 * unit
  }

  /** value / unit rounds to one integer only. */
  lemma RoundsToUnique(value: nat, unit: nat, m: nat, n: nat)
    requires unit > 0 && RoundsTo(value, unit, m) && RoundsTo(value, unit, n)
    ensures m == n
  {
    MulSucc(m, 2 * unit);
    MulSucc(n, 2 * unit);
    assert 2 * unit * n == n * (2 * unit) && 2 * unit * m == m * (2 * unit);
    MulLtCancel(m, n + 1, 2 * unit);
    MulLtCancel(n, m + 1, 2 * unit);
  }

  /** The number shown for value: value itself in seconds, else Math.round(value / unit). */
  function ShownNumber(value: nat, g: Granularity): (n: nat)
    ensures RoundsTo(value, UnitSeconds(g), n)
    ensures g == Seconds ==> n == value
  {
    if g == Seconds then value else RoundHalfUp(value, UnitSeconds(g))
  }

  /** The axis caption: the shown number followed by the unit letter, as in "125s", "2m", "3h". */
  function FormatTimelineTick(value: nat, g: Granularity): (caption: string)
    ensures |caption| >= 2 && caption[|caption| - 1] == UnitSuffix(g)
    ensures AllDigits(caption[..|caption| - 1])
    ensures RoundsTo(value, UnitSeconds(g), DigitsValue(caption[..|caption| - 1]))
    ensures g == Seconds ==> DigitsValue(caption[..|caption| - 1]) == value
    ensures var digits := caption[..|caption| - 1]; |digits| == 1 || digits[0] != '0'
  {
    var digits := NatToString(ShownNumber(value, g));
    var caption := digits + [UnitSuffix(g)];
    assert caption[..|caption| - 1] == digits;
    caption
  }

  /** The tooltip caption: the unit word, a space and the shown number, as in "Hour 2". */
  function FormatTimelineTooltip(value: nat, g: Granularity): (caption: string)
    ensures StartsWith(caption, UnitWord(g) + " ")
    ensures var digits := caption[|UnitWord(g)| + 1..];
      && |digits| >= 1
      && AllDigits(digits)
      && RoundsTo(value, UnitSeconds(g), DigitsValue(digits))
      && (|digits| == 1 || digits[0] != '0')
  {
    var digits := NatToString(ShownNumber(value, g));
    var caption := UnitWord(g) + " " + digits;
    assert caption[..|UnitWord(g)| + 1] == UnitWord(g) + " ";
    assert caption[|UnitWord(g)| + 1..] == digits;
    caption
  }

  /** The tooltip shows the same number as the axis caption, in the same unit. */
  lemma TooltipAgreesWithTick(value: nat, g: Granularity)
    ensures var tick := FormatTimelineTick(value, g);
      FormatTimelineTooltip(value, g) == UnitWord(g) + " " + tick[..|tick| - 1]
  {
    var digits := NatToString(ShownNumber(value, g));
    var tick := digits + [UnitSuffix(g)];
    assert tick[..|tick| - 1] == digits;
  }

  /** 125 seconds reads "125s" on a seconds axis and "2m" on a minutes axis; 7200 is "Hour 2". */
  lemma FormatExamples()
    ensures FormatTimelineTick(125, Seconds) == "125s"
    ensures FormatTimelineTick(125, Minutes) == "2m"
    ensures FormatTimelineTooltip(7200, Hours) == "Hour 2"
  {
    assert NatToString(1) == "1";
    assert NatToString(12) == "12";
    assert NatToString(125) == "125";
    assert RoundHalfUp(125, 60) == 2;
    assert NatToString(2) == "2";
    assert RoundHalfUp(7200, 3600) == 2;
  }
}
