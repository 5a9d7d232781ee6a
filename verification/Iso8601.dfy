/** Time stamps as text, `iso8601` of crates/core-api/src/compat.rs, in the form of
    section 5.6 of RFC 3339. */
module Iso8601 {
  import opened CivilDate

  // ------------------------------------------------------------------ numbers

  function Digit(n: nat): char
    requires n < 10
  {
    '0' + n as char
  }

  function Decimal(n: nat): string {
    if n < 10 then [Digit(n)] else Decimal(n / 10) + [Digit(n % 10)]
  }

  function Padded(s: string, width: nat): string
    decreases width - |s|
  {
    if |s| < width then Padded("0" + s, width) else s
  }

  /** The number a string of digits denotes. */
  function Value(s: string): int {
    if s == [] then 0 else Value(s[..|s| - 1]) * 10 + (s[|s| - 1] as int - '0' as int)
  }

  lemma ValueSnoc(s: string, c: char)
    ensures Value(s + [c]) == Value(s) * 10 + (c as int - '0' as int)
  {
    assert (s + [c])[..|s|] == s;
  }

  lemma {:induction false} ValueOfDecimal(n: nat)
    ensures Value(Decimal(n)) == n
  {
    if n >= 10 {
      ValueOfDecimal(n / 10);
      ValueSnoc(Decimal(n / 10), Digit(n % 10));
    } else {
      ValueSnoc([], Digit(n));
      assert [] + [Digit(n)] == [Digit(n)];
    }
  }

  lemma {:induction false} ValueOfZero(s: string)
    ensures Value("0" + s) == Value(s)
    decreases s
  {
    if s == [] {
      assert "0" + s == [] + ['0'];
      ValueSnoc([], '0');
    } else {
      var init, c := s[..|s| - 1], s[|s| - 1];
      assert "0" + s == ("0" + init) + [c];
      ValueSnoc("0" + init, c);
      ValueOfZero(init);
    }
  }

  lemma {:induction false} ValueOfPadded(s: string, width: nat)
    ensures Value(Padded(s, width)) == Value(s)
    ensures |Padded(s, width)| == if |s| < width then width else |s|
    decreases width - |s|
  {
    if |s| < width {
      ValueOfZero(s);
      ValueOfPadded("0" + s, width);
    }
  }

  function Two(n: nat): string {
    Padded(Decimal(n), 2)
  }

  lemma TwoDigits(n: nat)
    requires n < 100
    ensures |Two(n)| == 2 && Value(Two(n)) == n
  {
    ValueOfDecimal(n);
    ValueOfPadded(Decimal(n), 2);
    assert n >= 10 ==> |Decimal(n / 10)| == 1;
  }

  /** At least four characters, the sign of a negative year among them. */
  function YearText(y: int): string {
    if y < 0 then "-" + Padded(Decimal(-y), 3) else Padded(Decimal(y), 4)
  }

  lemma YearDigits(y: nat)
    ensures Value(YearText(y)) == y && |YearText(y)| >= 4
    ensures y <= 9999 ==> |YearText(y)| == 4
  {
    ValueOfDecimal(y);
    ValueOfPadded(Decimal(y), 4);
    if y <= 9999 { DecimalLength(y, 4); }
  }

  function Power10(k: nat): nat {
    if k == 0 then 1 else 10 * Power10(k - 1)
  }

  lemma {:induction false} DecimalLength(n: nat, k: nat)
    requires k >= 1 && n < Power10(k)
    ensures |Decimal(n)| <= k
    decreases k
  {
    if n >= 10 {
      assert k > 1;
      DecimalLength(n / 10, k - 1);
    }
  }

  // ----------------------------------------------------------------- time stamps

  datatype Clock = Clock(hour: nat, minute: nat, second: nat)

  function ClockOf(ts: nat): Clock {
    var s := ts % 86400;
    Clock(s / 3600, (s / 60) % 60, s % 60)
  }

  function Text(x: Date, c: Clock): string
    requires x.month >= 0 && x.day >= 0
  {
    YearText(x.year) + "-" + Two(x.month) + "-" + Two(x.day) + "T"
    + Two(c.hour) + ":" + Two(c.minute) + ":" + Two(c.second) + "Z"
  }

  lemma CivilIsValid(n: nat)
    ensures 1 <= CivilFromDays(n).month <= 12 && 1 <= CivilFromDays(n).day <= 31
  {
    WrappedCalendar(n);
    CalendarIsDay(n);
  }

  function Format(ts: nat): string {
    CivilIsValid(ts / 86400);
    Text(CivilFromDays(ts / 86400), ClockOf(ts))
  }

  predicate ValidClock(c: Clock) {
    c.hour < 24 && c.minute < 60 && c.second < 60
  }

  lemma ClockIsValid(ts: nat)
    ensures var c := ClockOf(ts); ValidClock(c) && c.hour * 3600 + c.minute * 60 + c.second == ts % 86400
  {
    var s := ts % 86400;
    assert s / 60 == 60 * (s / 3600) + (s / 60) % 60;
  }

  /** The date and time a text names, read from its end. */
  predicate Names(text: string, x: Date, c: Clock) {
    var n := |text|;
    && n >= 20
    && Value(text[..n - 16]) == x.year
    && text[n - 16] == '-' && Value(text[n - 15..n - 13]) == x.month
    && text[n - 13] == '-' && Value(text[n - 12..n - 10]) == x.day
    && text[n - 10] == 'T' && Value(text[n - 9..n - 7]) == c.hour
    && text[n - 7] == ':' && Value(text[n - 6..n - 4]) == c.minute
    && text[n - 4] == ':' && Value(text[n - 3..n - 1]) == c.second
    && text[n - 1] == 'Z'
  }

  lemma TextLayout(y: string, mo: string, d: string, h: string, mi: string, s: string)
    requires |mo| == |d| == |h| == |mi| == |s| == 2
    ensures var t := y + "-" + mo + "-" + d + "T" + h + ":" + mi + ":" + s + "Z"; var n := |t|;
            && n == |y| + 16 && t[..n - 16] == y
            && t[n - 16] == '-' && t[n - 15..n - 13] == mo && t[n - 13] == '-' && t[n - 12..n - 10] == d
            && t[n - 10] == 'T' && t[n - 9..n - 7] == h && t[n - 7] == ':' && t[n - 6..n - 4] == mi
            && t[n - 4] == ':' && t[n - 3..n - 1] == s && t[n - 1] == 'Z'
  {
  }

  lemma TextNames(x: Date, c: Clock)
    requires x.year >= 0 && ValidDate(x) && ValidClock(c)
    ensures Names(Text(x, c), x, c)
    ensures x.year <= 9999 ==> |Text(x, c)| == 20
  {
    YearDigits(x.year);
    TwoDigits(x.month);
    TwoDigits(x.day);
    TwoDigits(c.hour);
    TwoDigits(c.minute);
    TwoDigits(c.second);
    TextLayout(YearText(x.year), Two(x.month), Two(x.day), Two(c.hour), Two(c.minute), Two(c.second));
  }

  /** The text names the calendar day of the stamp, and the stamp is the instant it
      names, for every stamp whose year is a 32-bit number. */
  lemma FormatNamesTheInstant(ts: nat)
    requires ts / 86400 <= LAST_DAY
    ensures var x, c := Calendar(ts / 86400), ClockOf(ts);
            && Names(Format(ts), x, c) && ValidDate(x) && ValidClock(c)
            && DayNumber(x) * 86400 + c.hour * 3600 + c.minute * 60 + c.second == ts
            && (x.year <= 9999 ==> |Format(ts)| == 20)
  {
    var n := ts / 86400;
    CivilIsCalendar(n);
    CalendarIsDay(n);
    YearsGrow(0, n);
    ClockIsValid(ts);
    TextNames(Calendar(n), ClockOf(ts));
  }
}
