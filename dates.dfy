/** Calendar dates written `YYYY-MM-DD`, the form orders carry their delivery date in. */
module Dates {
  import opened Wrappers

  datatype Date = Date(year: int, month: int, day: int)

  predicate IsDigit(c: char) {
    '0' <= c <= '9'
  }

  function DigitValue(c: char): (n: int)
    requires IsDigit(c)
    ensures 0 <= n <= 9
  {
    c as int - '0' as int
  }

  function DigitChar(n: int): (c: char)
    requires 0 <= n <= 9
    ensures IsDigit(c) && DigitValue(c) == n
  {
    ('0' as int + n) as char
  }

  /** The regular expression `/^\d{4}-\d{2}-\d{2}$/`: four digits, a dash, two
      digits, a dash, two digits, and nothing else. */
  predicate MatchesIsoPattern(s: string) {
    && |s| == 10
    && IsDigit(s[0]) && IsDigit(s[1]) && IsDigit(s[2]) && IsDigit(s[3])
    && s[4] == '-'
    && IsDigit(s[5]) && IsDigit(s[6])
    && s[7] == '-'
    && IsDigit(s[8]) && IsDigit(s[9])
  }

  /** Reads the three numbers out of a string of the pattern; month and day are not
      range-checked, exactly as the pattern does not check them. */
  function ParseIso(s: string): (r: Option<Date>)
    ensures r.Some? <==> MatchesIsoPattern(s)
    ensures r.Some? ==> 0 <= r.value.year <= 9999 && 0 <= r.value.month <= 99 && 0 <= r.value.day <= 99
  {
    if MatchesIsoPattern(s) then
      Some(Date(
        DigitValue(s[0]) * 1000 + DigitValue(s[1]) * 100 + DigitValue(s[2]) * 10 + DigitValue(s[3]),
        DigitValue(s[5]) * 10 + DigitValue(s[6]),
        DigitValue(s[8]) * 10 + DigitValue(s[9])))
    else
      None
  }

  /** `DATE_FORMAT(d, '%Y-%m-%d')`: zero-padded year, month and day. */
  function FormatIso(d: Date): (s: string)
    requires 0 <= d.year <= 9999 && 0 <= d.month <= 99 && 0 <= d.day <= 99
    ensures MatchesIsoPattern(s)
  {
    [ DigitChar(d.year / 1000), DigitChar(d.year / 100 % 10), DigitChar(d.year / 10 % 10),
      DigitChar(d.year % 10), '-', DigitChar(d.month / 10), DigitChar(d.month % 10), '-',
      DigitChar(d.day / 10), DigitChar(d.day % 10) ]
  }

  lemma SplitFourDigits(y: int)
    requires 0 <= y <= 9999
    ensures y == (y / 1000) * 1000 + (y / 100 % 10) * 100 + (y / 10 % 10) * 10 + y % 10
    ensures 0 <= y / 1000 <= 9
  {
    DivTen(y);
    DivTen(y / 10);
    DivTen(y / 100);
    DivDiv(y);
  }

  lemma DivTen(x: int)
    requires x >= 0
    ensures x == x / 10 * 10 + x % 10 && 0 <= x % 10 < 10
  {
  }

  lemma DivDiv(y: int)
    requires y >= 0
    ensures y / 10 / 10 == y / 100 && y / 100 / 10 == y / 1000
  {
  }

  lemma SplitTwoDigits(n: int)
    requires 0 <= n <= 99
    ensures n == (n / 10) * 10 + n % 10
    ensures 0 <= n / 10 <= 9
  {
  }

  lemma JoinFourDigits(a: int, b: int, c: int, e: int)
    requires 0 <= a <= 9 && 0 <= b <= 9 && 0 <= c <= 9 && 0 <= e <= 9
    ensures var y := a * 1000 + b * 100 + c * 10 + e;
      y / 1000 == a && y / 100 % 10 == b && y / 10 % 10 == c && y % 10 == e
  {
    var y := a * 1000 + b * 100 + c * 10 + e;
    assert y / 10 == a * 100 + b * 10 + c;
    assert y / 100 == a * 10 + b;
  }

  lemma JoinTwoDigits(a: int, b: int)
    requires 0 <= a <= 9 && 0 <= b <= 9
    ensures (a * 10 + b) / 10 == a && (a * 10 + b) % 10 == b
  {
  }

  lemma DigitRoundTrip(c: char)
    requires IsDigit(c)
    ensures DigitChar(DigitValue(c)) == c
  {
  }

  /** Formatting and then parsing gives the date back ... */
  lemma ParseFormat(d: Date)
    requires 0 <= d.year <= 9999 && 0 <= d.month <= 99 && 0 <= d.day <= 99
    ensures ParseIso(FormatIso(d)) == Some(d)
  {
    SplitFourDigits(d.year);
    SplitTwoDigits(d.month);
    SplitTwoDigits(d.day);
  }

  /** ... and parsing and then formatting gives the string back. */
  lemma FormatParse(s: string)
    requires MatchesIsoPattern(s)
    ensures FormatIso(ParseIso(s).value) == s
  {
    var d := ParseIso(s).value;
    JoinFourDigits(DigitValue(s[0]), DigitValue(s[1]), DigitValue(s[2]), DigitValue(s[3]));
    JoinTwoDigits(DigitValue(s[5]), DigitValue(s[6]));
    JoinTwoDigits(DigitValue(s[8]), DigitValue(s[9]));
    DigitRoundTrip(s[0]); DigitRoundTrip(s[1]); DigitRoundTrip(s[2]); DigitRoundTrip(s[3]);
    DigitRoundTrip(s[5]); DigitRoundTrip(s[6]); DigitRoundTrip(s[8]); DigitRoundTrip(s[9]);
    var t := FormatIso(d);
    assert t == [s[0], s[1], s[2], s[3], '-', s[5], s[6], '-', s[8], s[9]];
  }

  /** Month 1 to 12 and day 1 to 31, the ranges the ECMAScript date-time string
      format admits; any other string makes `new Date(...)` an invalid date. */
  predicate IsCalendarDate(d: Date) {
    1 <= d.month <= 12 && 1 <= d.day <= 31
  }

  /** Strictly earlier day. */
  predicate Before(a: Date, b: Date) {
    a.year < b.year
    || (a.year == b.year && a.month < b.month)
    || (a.year == b.year && a.month == b.month && a.day < b.day)
  }

  /** An integer that grows with the date: the key both `ORDER BY fecha_entrega` and
      `getTime()` order by. */
  function Ordinal(d: Date): int {
    d.year * 10000 + d.month * 100 + d.day
  }

  /** For month and day below 100, ordinals order dates as the calendar does. */
  lemma OrdinalOrdersDates(a: Date, b: Date)
    requires 0 <= a.month <= 99 && 0 <= a.day <= 99
    requires 0 <= b.month <= 99 && 0 <= b.day <= 99
    ensures Before(a, b) <==> Ordinal(a) < Ordinal(b)
    ensures Ordinal(a) == Ordinal(b) <==> a == b
  {
  }

  /** `new Date(s).getTime()` reduced to its order: the ordinal of a calendar date, and
      0 for a string that is not one (where JavaScript yields NaN). */
  function TimeKey(s: string): int {
    match ParseIso(s)
    case Some(d) => if IsCalendarDate(d) then Ordinal(d) else 0
    case None => 0
  }
}
