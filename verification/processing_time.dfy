/**
 * The processing-time column of the uploads table (formatProcessingTime, defined the same
 * way in the dashboard page and in the recent-uploads table): a duration in seconds shown
 * as "{h}h {m}m {s}s", "{m}m {s}s" or "{s}s", or "N/A" when there is none.
 */
module ProcessingTime {
  import opened Wrappers
  import opened Arith
  import opened Text

  /** Hours, minutes and seconds of a whole number of seconds. */
  datatype Clock = Clock(hours: nat, minutes: nat, seconds: nat)

  /** Math.round on a positive number: the nearest integer, halves rounded up. */
  function RoundPositive(x: real): (n: nat)
    requires x > 0.0
    ensures n as real - 0.5 <= x < n as real + 0.5
  {
    (x + 0.5).Floor
  }

  /** Whole hours, the minutes left over and the seconds left over. */
  function ToClock(total: nat): (c: Clock)
    ensures c.hours * 3600 + c.minutes * 60 + c.seconds == total
    ensures c.minutes < 60 && c.seconds < 60
  {
    var rest := total % 3600;
    assert total % 60 == rest % 60 by {
      assert total == (total / 3600) * 3600 + rest;
      assert total == ((total / 3600) * 60 + rest / 60) * 60 + rest % 60;
    }
    Clock(total / 3600, rest / 60, total % 60)
  }

  /** The clock reading of a total is the only one with minutes and seconds below 60. */
  lemma ClockUnique(c: Clock, total: nat)
    requires c.hours * 3600 + c.minutes * 60 + c.seconds == total
    requires c.minutes < 60 && c.seconds < 60
    ensures c == ToClock(total)
  {
    var d := ToClock(total);
    DivModUnique(total, 3600, c.hours, c.minutes * 60 + c.seconds);
    DivModUnique(c.minutes * 60 + c.seconds, 60, c.minutes, c.seconds);
    DivModUnique(total, 60, c.hours * 60 + c.minutes, c.seconds);
  }

  /** One part of the text: a number followed by its unit letter. */
  function Part(n: nat, unit: char): string
  {
    NatToString(n) + [unit]
  }

  /**
   * The column text. An absent, zero or negative duration is "N/A"; otherwise the rounded
   * total is split into hours, minutes and seconds, and the leading zero units are dropped
   * down to minutes when there are no hours and down to seconds when there are no minutes.
   */
  function FormatProcessingTime(seconds: Option<real>): (text: string)
    ensures text == "N/A" <==> seconds.None? || seconds.value <= 0.0
  {
    if seconds.None? || seconds.value <= 0.0 then "N/A"
    else ClockText(ToClock(RoundPositive(seconds.value)))
  }

  /** The text of a clock reading, leading zero hours and minutes left out. */
  function ClockText(c: Clock): (text: string)
    ensures |text| >= 2 && text[|text| - 1] == 's'
  {
    if c.hours > 0 then Part(c.hours, 'h') + " " + Part(c.minutes, 'm') + " " + Part(c.seconds, 's')
    else if c.minutes > 0 then Part(c.minutes, 'm') + " " + Part(c.seconds, 's')
    else Part(c.seconds, 's')
  }

  /** Reads one part back: digits followed by the expected unit letter. */
  function ParsePart(p: string, unit: char): (n: Option<nat>)
    ensures n.Some? ==> p == Part(n.value, unit) || (|p| > 2 && p[0] == '0')
  {
    if |p| >= 2 && p[|p| - 1] == unit && AllDigits(p[..|p| - 1]) then
      var n := DigitsValue(p[..|p| - 1]);
      ParseDigits(p[..|p| - 1]);
      Some(n)
    else None
  }

  /** Reading back a rendered number gives the number. */
  lemma {:induction false} ParseDigits(s: string)
    requires |s| >= 1 && AllDigits(s)
    ensures s == NatToString(DigitsValue(s)) || (|s| > 1 && s[0] == '0')
    decreases |s|
  {
    if |s| > 1 {
      var init := s[..|s| - 1];
      ParseDigits(init);
      var last := s[|s| - 1] as int - '0' as int;
      var n := DigitsValue(s);
      if init == NatToString(DigitsValue(init)) && s[0] != '0' {
        assert n / 10 == DigitsValue(init) && n % 10 == last;
        assert init[0] == s[0];
        assert DigitsValue(init) > 0;
        assert NatToString(n) == NatToString(n / 10) + [DigitChar(n % 10)];
        assert DigitChar(last) == s[|s| - 1];
        assert s == init + [s[|s| - 1]];
      }
    } else {
      var d := s[0] as int - '0' as int;
      assert s[..0] == [];
      assert DigitsValue(s) == d;
      assert NatToString(d) == [DigitChar(d)];
      assert DigitChar(d) == s[0];
    }
  }

  /** A part names its own number. */
  lemma ParsePartOfPart(n: nat, unit: char)
    requires !IsDigit(unit)
    ensures ParsePart(Part(n, unit), unit) == Some(n)
  {
    var p := Part(n, unit);
    assert p[..|p| - 1] == NatToString(n);
  }

  /** Reads the column text back into the rounded total of seconds; "N/A" and malformed text give none. */
  function ParseProcessingTime(text: string): Option<nat>
  {
    var parts := Split(text, ' ');
    if |parts| == 3 then
      match (ParsePart(parts[0], 'h'), ParsePart(parts[1], 'm'), ParsePart(parts[2], 's'))
      case (Some(h), Some(m), Some(s)) => Some(h * 3600 + m * 60 + s)
      case _ => None
    else if |parts| == 2 then
      match (ParsePart(parts[0], 'm'), ParsePart(parts[1], 's'))
      case (Some(m), Some(s)) => Some(m * 60 + s)
      case _ => None
    else
      match ParsePart(parts[0], 's')
      case Some(s) => Some(s)
      case None => None
  }

  /** A part holds no space, so splitting the text on spaces gives back its parts. */
  lemma PartHasNoSpace(n: nat, unit: char)
    requires unit != ' '
    ensures ' ' !in Part(n, unit)
  {
    var digits := NatToString(n);
    assert forall i :: 0 <= i < |digits| ==> digits[i] != ' ';
  }

  /**
   * Which units are shown: all three when there are hours, minutes and seconds when there
   * are minutes but no hours, seconds alone otherwise.
   */
  lemma ClockTextParts(c: Clock)
    ensures var parts := Split(ClockText(c), ' ');
      && (c.hours > 0 ==> parts == [Part(c.hours, 'h'), Part(c.minutes, 'm'), Part(c.seconds, 's')])
      && (c.hours == 0 && c.minutes > 0 ==> parts == [Part(c.minutes, 'm'), Part(c.seconds, 's')])
      && (c.hours == 0 && c.minutes == 0 ==> parts == [Part(c.seconds, 's')])
  {
    if c.hours > 0 {
      HoursTextParts(c);
    } else if c.minutes > 0 {
      MinutesTextParts(c);
    } else {
      SecondsTextParts(c);
    }
  }

  lemma HoursTextParts(c: Clock)
    requires c.hours > 0
    ensures Split(ClockText(c), ' ') == [Part(c.hours, 'h'), Part(c.minutes, 'm'), Part(c.seconds, 's')]
  {
    PartHasNoSpace(c.hours, 'h');
    PartHasNoSpace(c.minutes, 'm');
    PartHasNoSpace(c.seconds, 's');
    SplitThree(Part(c.hours, 'h'), Part(c.minutes, 'm'), Part(c.seconds, 's'), ' ');
  }

  lemma MinutesTextParts(c: Clock)
    requires c.hours == 0 && c.minutes > 0
    ensures Split(ClockText(c), ' ') == [Part(c.minutes, 'm'), Part(c.seconds, 's')]
  {
    PartHasNoSpace(c.minutes, 'm');
    PartHasNoSpace(c.seconds, 's');
    SplitTwo(Part(c.minutes, 'm'), Part(c.seconds, 's'), ' ');
  }

  lemma SecondsTextParts(c: Clock)
    requires c.hours == 0 && c.minutes == 0
    ensures Split(ClockText(c), ' ') == [Part(c.seconds, 's')]
  {
    PartHasNoSpace(c.seconds, 's');
    SplitNoSeparator(Part(c.seconds, 's'), ' ');
  }

  /** The text of a clock reading reads back as its total of seconds. */
  lemma ClockTextThenParse(c: Clock)
    ensures ParseProcessingTime(ClockText(c)) == Some(c.hours * 3600 + c.minutes * 60 + c.seconds)
  {
    if c.hours > 0 {
      ParseHoursText(c);
    } else if c.minutes > 0 {
      ParseMinutesText(c);
    } else {
      ParseSecondsText(c);
    }
  }

  lemma ParseHoursText(c: Clock)
    requires c.hours > 0
    ensures ParseProcessingTime(ClockText(c)) == Some(c.hours * 3600 + c.minutes * 60 + c.seconds)
  {
    HoursTextParts(c);
    ParseThreeParts(ClockText(c), c.hours, c.minutes, c.seconds);
  }

  lemma ParseMinutesText(c: Clock)
    requires c.hours == 0 && c.minutes > 0
    ensures ParseProcessingTime(ClockText(c)) == Some(c.hours * 3600 + c.minutes * 60 + c.seconds)
  {
    MinutesTextParts(c);
    ParseTwoParts(ClockText(c), c.minutes, c.seconds);
  }

  lemma ParseSecondsText(c: Clock)
    requires c.hours == 0 && c.minutes == 0
    ensures ParseProcessingTime(ClockText(c)) == Some(c.hours * 3600 + c.minutes * 60 + c.seconds)
  {
    SecondsTextParts(c);
    ParseOnePart(ClockText(c), c.seconds);
  }

  /** Text that splits into an hours, a minutes and a seconds part reads as their total. */
  lemma ParseThreeParts(text: string, h: nat, m: nat, s: nat)
    requires Split(text, ' ') == [Part(h, 'h'), Part(m, 'm'), Part(s, 's')]
    ensures ParseProcessingTime(text) == Some(h * 3600 + m * 60 + s)
  {
    ParsePartOfPart(h, 'h');
    ParsePartOfPart(m, 'm');
    ParsePartOfPart(s, 's');
  }

  /** Text that splits into a minutes and a seconds part reads as their total. */
  lemma ParseTwoParts(text: string, m: nat, s: nat)
    requires Split(text, ' ') == [Part(m, 'm'), Part(s, 's')]
    ensures ParseProcessingTime(text) == Some(m * 60 + s)
  {
    ParsePartOfPart(m, 'm');
    ParsePartOfPart(s, 's');
  }

  /** Text that is a single seconds part reads as its number. */
  lemma ParseOnePart(text: string, s: nat)
    requires Split(text, ' ') == [Part(s, 's')]
    ensures ParseProcessingTime(text) == Some(s)
  {
    ParsePartOfPart(s, 's');
  }

  /** The text of a positive duration reads back as its rounded total of seconds. */
  lemma FormatThenParse(x: real)
    requires x > 0.0
    ensures ParseProcessingTime(FormatProcessingTime(Some(x))) == Some(RoundPositive(x))
  {
    TotalThenParse(RoundPositive(x));
  }

  /** The text of a whole number of seconds reads back as that number. */
  lemma TotalThenParse(total: nat)
    ensures ParseProcessingTime(ClockText(ToClock(total))) == Some(total)
  {
    ClockTotalThenParse(ToClock(total), total);
  }

  /** A clock reading of a total reads back as that total. */
  lemma ClockTotalThenParse(c: Clock, total: nat)
    requires c.hours * 3600 + c.minutes * 60 + c.seconds == total
    ensures ParseProcessingTime(ClockText(c)) == Some(total)
  {
    ClockTextThenParse(c);
  }

  /** Distinct rounded totals give distinct texts. */
  lemma FormatDistinguishesTotals(x: real, y: real)
    requires x > 0.0 && y > 0.0
    requires FormatProcessingTime(Some(x)) == FormatProcessingTime(Some(y))
    ensures RoundPositive(x) == RoundPositive(y)
  {
    FormatThenParse(x);
    FormatThenParse(y);
  }

  /** 3600 s is "1h 0m 0s", 125 s is "2m 5s", 0.3 s rounds to "0s", and nothing is "N/A". */
  lemma FormatExamples()
    ensures FormatProcessingTime(Some(3600.0)) == "1h 0m 0s"
    ensures FormatProcessingTime(Some(125.0)) == "2m 5s"
    ensures FormatProcessingTime(Some(0.3)) == "0s"
    ensures FormatProcessingTime(None) == "N/A"
    ensures FormatProcessingTime(Some(0.0)) == "N/A"
  {
    assert RoundPositive(3600.0) == 3600;
    assert ToClock(3600) == Clock(1, 0, 0);
    assert RoundPositive(125.0) == 125;
    assert ToClock(125) == Clock(0, 2, 5);
    assert RoundPositive(0.3) == 0;
    assert ToClock(0) == Clock(0, 0, 0);
  }
}
