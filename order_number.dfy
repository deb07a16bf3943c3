/** The default value of a new order's `number` field: "OR-", the creation
    minute as `ddmmyy-HHii`, "-", and a random value from 1000 to 9999. The
    clock reading and the random draw are parameters. */
module OrderNumber {
  import opened Wrappers

  const Prefix: string := "OR-"

  /** The field's `maxLength`. */
  const MaxLength: nat := 32

  /** The length every default number has. */
  const NumberLength: nat := 19

  /** The calendar fields of the moment the order form is opened. */
  datatype Moment = Moment(day: int, month: int, year: int, hour: int, minute: int)

  predicate ValidMoment(t: Moment) {
    1 <= t.day <= 31 && 1 <= t.month <= 12 && 0 <= t.year &&
    0 <= t.hour < 24 && 0 <= t.minute < 60
  }

  /** What a default number records: the two-digit fields of the stamp and
      the four-digit suffix. */
  datatype NumberParts = NumberParts(day: nat, month: nat, year: nat, hour: nat, minute: nat, suffix: nat)

  predicate FitsWidths(p: NumberParts) {
    p.day < 100 && p.month < 100 && p.year < 100 && p.hour < 100 && p.minute < 100 && p.suffix < 10000
  }

  predicate IsDigit(c: char) {
    '0' <= c <= '9'
  }

  predicate AllDigits(s: string) {
    forall i | 0 <= i < |s| :: IsDigit(s[i])
  }

  function DigitChar(d: nat): (c: char)
    requires d < 10
    ensures IsDigit(c)
  {
    ('0' as int + d) as char
  }

  function Pow10(n: nat): (r: nat)
    ensures r >= 1
  {
    if n == 0 then 1 else 10 * Pow10(n - 1)
  }

  /** `n` written in decimal on exactly `width` digits, keeping the low
      digits and padding with leading zeros. */
  function Digits(n: nat, width: nat): (r: string)
    ensures |r| == width && AllDigits(r)
  {
    if width == 0 then [] else Digits(n / 10, width - 1) + [DigitChar(n % 10)]
  }

  /** The number a string of decimal digits denotes. */
  function Value(s: string): nat
    requires AllDigits(s)
  {
    if s == [] then 0 else 10 * Value(s[..|s| - 1]) + (s[|s| - 1] as int - '0' as int)
  }

  /** The `dmy` date part of the stamp. */
  function DatePart(p: NumberParts): (r: string)
    ensures |r| == 6 && AllDigits(r)
  {
    Digits(p.day, 2) + Digits(p.month, 2) + Digits(p.year, 2)
  }

  /** The `Hi` time part of the stamp. */
  function TimePart(p: NumberParts): (r: string)
    ensures |r| == 4 && AllDigits(r)
  {
    Digits(p.hour, 2) + Digits(p.minute, 2)
  }

  /** The stamp and suffix laid out as the default number: the `dmy-Hi`
      date format between the prefix and the suffix. */
  function Format(p: NumberParts): (r: string)
    ensures |r| == NumberLength
    ensures r[..3] == Prefix && r[9] == '-' && r[14] == '-'
    ensures r[3..9] == DatePart(p) && r[10..14] == TimePart(p) && r[15..] == Digits(p.suffix, 4)
  {
    Prefix + DatePart(p) + "-" + TimePart(p) + "-" + Digits(p.suffix, 4)
  }

  /** The parts a default number records for a moment and a random draw:
      `y` keeps the last two digits of the year. */
  function PartsOf(t: Moment, random: int): (p: NumberParts)
    requires ValidMoment(t) && 1000 <= random <= 9999
    ensures FitsWidths(p)
  {
    NumberParts(t.day, t.month, t.year % 100, t.hour, t.minute, random)
  }

  /** The default order number: 19 characters, so within the field's
      32-character limit, with the random suffix never starting with 0. */
  function DefaultNumber(t: Moment, random: int): (r: string)
    requires ValidMoment(t) && 1000 <= random <= 9999
    ensures |r| == NumberLength && |r| <= MaxLength
    ensures r[..3] == Prefix && r[9] == '-' && r[14] == '-'
    ensures AllDigits(r[3..9]) && AllDigits(r[10..14]) && AllDigits(r[15..])
    ensures r[15] != '0'
  {
    var r := Format(PartsOf(t, random));
    DigitsRoundTrip(random, 4);
    assert r[15..] == Digits(random, 4);
    LeadingDigit(random, 4);
    r
  }

  predicate HasNumberShape(s: string) {
    |s| == NumberLength && s[..3] == Prefix && s[9] == '-' && s[14] == '-'
    && AllDigits(s[3..9]) && AllDigits(s[10..14]) && AllDigits(s[15..])
  }

  /** The parts written in a date part, a time part and a suffix. */
  function PartsFrom(date: string, time: string, suffix: string): (p: NumberParts)
    requires |date| == 6 && AllDigits(date) && |time| == 4 && AllDigits(time)
    requires |suffix| == 4 && AllDigits(suffix)
    ensures FitsWidths(p)
  {
    assert AllDigits(date[..2]) && AllDigits(date[2..4]) && AllDigits(date[4..]);
    assert AllDigits(time[..2]) && AllDigits(time[2..]);
    ValueBound(date[..2]); ValueBound(date[2..4]); ValueBound(date[4..]);
    ValueBound(time[..2]); ValueBound(time[2..]); ValueBound(suffix);
    NumberParts(Value(date[..2]), Value(date[2..4]), Value(date[4..]),
                Value(time[..2]), Value(time[2..]), Value(suffix))
  }

  /** Reads a string of the default number's shape back into its parts. */
  function Parse(s: string): (r: Option<NumberParts>)
    ensures r.Some? <==> HasNumberShape(s)
    ensures r.Some? ==> FitsWidths(r.value)
  {
    if HasNumberShape(s) then Some(PartsFrom(s[3..9], s[10..14], s[15..])) else None
  }

  lemma {:induction false} ValueBound(s: string)
    requires AllDigits(s)
    ensures Value(s) < Pow10(|s|)
  {
    if s != [] {
      ValueBound(s[..|s| - 1]);
    }
  }

  /** Writing a number that fits the width and reading it back gives it. */
  lemma {:induction false} DigitsRoundTrip(n: nat, width: nat)
    requires n < Pow10(width)
    ensures Value(Digits(n, width)) == n
  {
    if width > 0 {
      DigitsRoundTrip(n / 10, width - 1);
      var r := Digits(n, width);
      assert r[..|r| - 1] == Digits(n / 10, width - 1);
    }
  }

  /** A number with `width` digits and no fewer starts with a non-zero digit. */
  lemma {:induction false} LeadingDigit(n: nat, width: nat)
    requires width > 0 && Pow10(width - 1) <= n < Pow10(width)
    ensures Digits(n, width)[0] != '0'
  {
    if width > 1 {
      LeadingDigit(n / 10, width - 1);
    }
  }

  /** Reading a digit string and writing it back on its own width gives it. */
  lemma {:induction false} ValueRoundTrip(s: string)
    requires AllDigits(s)
    ensures Digits(Value(s), |s|) == s
  {
    if s != [] {
      var init := s[..|s| - 1];
      ValueRoundTrip(init);
      assert (10 * Value(init) + (s[|s| - 1] as int - '0' as int)) / 10 == Value(init);
      assert s == init + [s[|s| - 1]];
    }
  }

  /** Formatting parts that fit their widths and reading them back gives
      the same parts. */
  lemma FormatParseRoundTrip(p: NumberParts)
    requires FitsWidths(p)
    ensures Parse(Format(p)) == Some(p)
  {
    var d, h := DatePart(p), TimePart(p);
    DigitsRoundTrip(p.day, 2);
    DigitsRoundTrip(p.month, 2);
    DigitsRoundTrip(p.year, 2);
    DigitsRoundTrip(p.hour, 2);
    DigitsRoundTrip(p.minute, 2);
    DigitsRoundTrip(p.suffix, 4);
    assert d[..2] == Digits(p.day, 2) && d[2..4] == Digits(p.month, 2) && d[4..] == Digits(p.year, 2);
    assert h[..2] == Digits(p.hour, 2) && h[2..] == Digits(p.minute, 2);
  }

  /** Reading the three digit groups and writing them back gives them. */
  lemma PartsFromRoundTrip(date: string, time: string, suffix: string)
    requires |date| == 6 && AllDigits(date) && |time| == 4 && AllDigits(time)
    requires |suffix| == 4 && AllDigits(suffix)
    ensures var p := PartsFrom(date, time, suffix);
            DatePart(p) == date && TimePart(p) == time && Digits(p.suffix, 4) == suffix
  {
    assert AllDigits(date[..2]) && AllDigits(date[2..4]) && AllDigits(date[4..]);
    assert AllDigits(time[..2]) && AllDigits(time[2..]);
    ValueRoundTrip(date[..2]); ValueRoundTrip(date[2..4]); ValueRoundTrip(date[4..]);
    ValueRoundTrip(time[..2]); ValueRoundTrip(time[2..]); ValueRoundTrip(suffix);
    assert date == date[..2] + date[2..4] + date[4..];
    assert time == time[..2] + time[2..];
  }

  /** Every string that parses is the formatting of what it parses to: the
      shape has one spelling per stamp and suffix. */
  lemma ParseFormatRoundTrip(s: string)
    requires Parse(s).Some?
    ensures Format(Parse(s).value) == s
  {
    PartsFromRoundTrip(s[3..9], s[10..14], s[15..]);
    var r := Format(Parse(s).value);
    assert s == s[..3] + s[3..9] + [s[9]] + s[10..14] + [s[14]] + s[15..];
    assert r == r[..3] + r[3..9] + [r[9]] + r[10..14] + [r[14]] + r[15..];
  }

  /** The default number records the day, month, two-digit year, hour,
      minute and random draw it was made from. */
  lemma DefaultNumberRecords(t: Moment, random: int)
    requires ValidMoment(t) && 1000 <= random <= 9999
    ensures Parse(DefaultNumber(t, random))
      == Some(NumberParts(t.day, t.month, t.year % 100, t.hour, t.minute, random))
  {
    FormatParseRoundTrip(PartsOf(t, random));
  }

  /** Two default numbers are equal only when made in the same minute (up
      to the century) with the same draw: orders opened in one minute
      collide only on equal draws. */
  lemma DefaultNumberCollision(t1: Moment, r1: int, t2: Moment, r2: int)
    requires ValidMoment(t1) && 1000 <= r1 <= 9999
    requires ValidMoment(t2) && 1000 <= r2 <= 9999
    ensures DefaultNumber(t1, r1) == DefaultNumber(t2, r2) <==> PartsOf(t1, r1) == PartsOf(t2, r2)
  {
    FormatParseRoundTrip(PartsOf(t1, r1));
    FormatParseRoundTrip(PartsOf(t2, r2));
  }
}
