/** `categorize_time`: parse a "07h30"-style time with strptime's "%Hh%M" and name the
    part of the day its hour falls in; and the regular expression that the cleaning uses
    to decide which Time cells are kept. */
module TimeOfDay {
  import opened Options

  const Night: string := "Night"
  const Morning: string := "Morning"
  const Afternoon: string := "Afternoon"
  const Evening: string := "Evening"

  /** The four labels categorize_time can return. */
  predicate IsTimeOfDay(s: string)
  {
    s == Night || s == Morning || s == Afternoon || s == Evening
  }

  predicate IsDigit(c: char)
  {
    '0' <= c <= '9'
  }

  function DigitValue(c: char): (d: nat)
    requires IsDigit(c)
    ensures d <= 9
  {
    c as int - '0' as int
  }

  function DigitChar(d: nat): (c: char)
    requires d <= 9
    ensures IsDigit(c) && DigitValue(c) == d
  {
    ('0' as int + d) as char
  }

  function TwoDigitValue(hi: char, lo: char): (n: nat)
    requires IsDigit(hi) && IsDigit(lo)
    ensures n <= 99
  {
    10 * DigitValue(hi) + DigitValue(lo)
  }

  /** The literal `h` of the format. strptime compiles its pattern case-insensitively,
      so `H` is accepted as well. */
  predicate IsHourMark(c: char)
  {
    c == 'h' || c == 'H'
  }

  /** The fields of the parsed datetime that categorize_time reads. */
  datatype Clock = Clock(hour: nat, minute: nat)

  predicate ValidClock(c: Clock)
  {
    c.hour <= 23 && c.minute <= 59
  }

  /** strptime(s, "%Hh%M"). The hour is `2[0-3]|[0-1]\d|\d`, the minute `[0-5]\d|\d`, and
      text left over after the minute is an error ("unconverted data remains"). None stands
      for the ValueError. */
  function ParseClock(s: string): (r: Option<Clock>)
    ensures r.Some? ==> ValidClock(r.value)
  {
    if |s| >= 2 && IsDigit(s[0]) && IsHourMark(s[1]) then
      ParseMinute(DigitValue(s[0]), s[2..])
    else if |s| >= 3 && IsDigit(s[0]) && IsDigit(s[1]) && IsHourMark(s[2])
            && TwoDigitValue(s[0], s[1]) <= 23 then
      ParseMinute(TwoDigitValue(s[0], s[1]), s[3..])
    else
      None
  }

  /** The `%M` part of the parse: everything after the hour mark. */
  function ParseMinute(hour: nat, rest: string): (r: Option<Clock>)
    requires hour <= 23
    ensures r.Some? ==> r.value.hour == hour && r.value.minute <= 59
  {
    if |rest| == 1 && IsDigit(rest[0]) then
      Some(Clock(hour, DigitValue(rest[0])))
    else if |rest| == 2 && IsDigit(rest[0]) && IsDigit(rest[1]) && rest[0] <= '5' then
      Some(Clock(hour, TwoDigitValue(rest[0], rest[1])))
    else
      None
  }

  /** strftime(c, "%Hh%M"): both fields zero-padded to two digits. */
  function FormatClock(c: Clock): (s: string)
    requires ValidClock(c)
    ensures |s| == 5 && s[2] == 'h'
  {
    [DigitChar(c.hour / 10), DigitChar(c.hour % 10), 'h', DigitChar(c.minute / 10), DigitChar(c.minute % 10)]
  }

  /** Every valid clock time, written in the format, parses back to itself. */
  lemma ParseFormatClock(c: Clock)
    requires ValidClock(c)
    ensures ParseClock(FormatClock(c)) == Some(c)
  {
  }

  /** The if/elif chain on the hour. Hour 5 is in none of the ranges and reaches the
      final else, which also answers Night. */
  function HourLabel(hour: int): (part: string)
    ensures part == Morning <==> 6 <= hour < 12
    ensures part == Afternoon <==> 12 <= hour < 18
    ensures part == Evening <==> 18 <= hour < 21
    ensures part == Night <==> !(6 <= hour < 21)
  {
    if 0 <= hour < 5 then Night
    else if 6 <= hour < 12 then Morning
    else if 12 <= hour < 18 then Afternoon
    else if 18 <= hour < 21 then Evening
    else if 21 <= hour <= 23 then Night
    else Night
  }

  /** categorize_time: the label of the parsed hour, or Night when strptime raises. */
  function CategorizeTime(s: string): (part: string)
    ensures IsTimeOfDay(part)
    ensures ParseClock(s).None? ==> part == Night
  {
    match ParseClock(s)
    case None => Night
    case Some(c) => HourLabel(c.hour)
  }

  /** A valid time written as "%Hh%M" is labelled by its hour alone. */
  lemma CategorizeFormattedTime(c: Clock)
    requires ValidClock(c)
    ensures CategorizeTime(FormatClock(c)) == HourLabel(c.hour)
    ensures 6 <= c.hour < 12 <==> CategorizeTime(FormatClock(c)) == Morning
    ensures 12 <= c.hour < 18 <==> CategorizeTime(FormatClock(c)) == Afternoon
    ensures 18 <= c.hour < 21 <==> CategorizeTime(FormatClock(c)) == Evening
    ensures (c.hour < 6 || 21 <= c.hour) <==> CategorizeTime(FormatClock(c)) == Night
  {
  }

  /** `\d{1,2}h\d{2}` matched against the whole of s. */
  predicate TimeShape(s: string)
  {
    (|s| == 4 && IsDigit(s[0]) && s[1] == 'h' && IsDigit(s[2]) && IsDigit(s[3])) ||
    (|s| == 5 && IsDigit(s[0]) && IsDigit(s[1]) && s[2] == 'h' && IsDigit(s[3]) && IsDigit(s[4]))
  }

  /** `re.match(r'^\d{1,2}h\d{2}$', s)`: Python's `$` also matches just before a final
      newline, so one trailing "\n" is let through. */
  predicate MatchesTimeFilter(s: string)
    ensures TimeShape(s) ==> MatchesTimeFilter(s)
    ensures MatchesTimeFilter(s) ==> 4 <= |s| <= 6 && IsDigit(s[0]) && s[|s| - 1] != 'h'
  {
    TimeShape(s) || (|s| > 0 && s[|s| - 1] == '\n' && TimeShape(s[..|s| - 1]))
  }

  /** What the filter keeps and drops: one- or two-digit hours with a lower-case `h` and
      two minute digits, one trailing newline at most. */
  lemma TimeFilterExamples()
    ensures MatchesTimeFilter("7h30") && MatchesTimeFilter("07h30") && MatchesTimeFilter("99h99")
    ensures MatchesTimeFilter("12h30\n")
    ensures !MatchesTimeFilter("123h00") && !MatchesTimeFilter("7h3") && !MatchesTimeFilter("07H30")
    ensures !MatchesTimeFilter("07:30") && !MatchesTimeFilter("nan") && !MatchesTimeFilter("07h30 ")
  {
  }

  /** The hour digits of a string of the filter's shape. */
  function ShapeHour(s: string): nat
    requires TimeShape(s)
  {
    if |s| == 4 then DigitValue(s[0]) else TwoDigitValue(s[0], s[1])
  }

  /** The minute digits of a string of the filter's shape. */
  function ShapeMinute(s: string): nat
    requires TimeShape(s)
  {
    TwoDigitValue(s[|s| - 2], s[|s| - 1])
  }

  /** A string of the filter's shape parses exactly when its hour is at most 23 and its
      minute at most 59, and then to those digits. */
  lemma ParseShapedTime(s: string)
    requires TimeShape(s)
    ensures ParseClock(s).Some? <==> ShapeHour(s) <= 23 && ShapeMinute(s) <= 59
    ensures ParseClock(s).Some? ==> ParseClock(s).value == Clock(ShapeHour(s), ShapeMinute(s))
  {
  }

  /** What the filter lets through is labelled by its hour; an hour above 23 or a minute
      above 59 makes strptime raise, and the label is Night. */
  lemma CategorizeShapedTime(s: string)
    requires TimeShape(s)
    ensures CategorizeTime(s)
         == if ShapeHour(s) <= 23 && ShapeMinute(s) <= 59 then HourLabel(ShapeHour(s)) else Night
  {
  }

  /** A time the filter lets through only thanks to a trailing newline leaves that newline
      unconverted, so strptime raises and the label is Night whatever the hour. */
  lemma CategorizeNewlineTime(s: string)
    requires TimeShape(s)
    ensures MatchesTimeFilter(s + "\n")
    ensures CategorizeTime(s + "\n") == Night
  {
  }

  /** No label has the shape of a time, so a label never passes the filter. */
  lemma LabelsFailTimeFilter(s: string)
    requires IsTimeOfDay(s)
    ensures !MatchesTimeFilter(s)
  {
  }

  /** The worked examples: "07h30" is Morning, "23h59" and "05h15" are Night, and the
      pattern-shaped but invalid "24h00" and "7h99" are Night rather than an error.
      strptime also takes a one-digit minute and an upper-case hour mark, and refuses any
      text after the minute. */
  lemma CategorizeExamples()
    ensures CategorizeTime("07h30") == Morning
    ensures CategorizeTime("23h59") == Night
    ensures CategorizeTime("05h15") == Night
    ensures CategorizeTime("24h00") == Night
    ensures CategorizeTime("7h99") == Night
    ensures CategorizeTime("14h05") == Afternoon
    ensures CategorizeTime("19h45") == Evening
    ensures CategorizeTime("7h5") == Morning
    ensures CategorizeTime("07H30") == Morning
    ensures CategorizeTime("07h30 ") == Night
  {
  }
}
