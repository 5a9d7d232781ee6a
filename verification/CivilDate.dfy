/** Dates from day counts and time stamps: `civil_from_days` and `iso8601` of
    crates/core-api/src/compat.rs, against the Gregorian calendar. */
module CivilDate {

  // --------------------------------------------------------------- the calendar

  datatype Date = Date(year: int, month: int, day: int)

  predicate IsLeap(year: int) {
    year % 4 == 0 && (year % 100 != 0 || year % 400 == 0)
  }

  function DaysInMonth(year: int, month: int): int {
    if month == 2 then if IsLeap(year) then 29 else 28
    else if month == 4 || month == 6 || month == 9 || month == 11 then 30
    else 31
  }

  predicate ValidDate(x: Date) {
    1 <= x.month <= 12 && 1 <= x.day <= DaysInMonth(x.year, x.month)
  }

  function NextDay(x: Date): Date {
    if x.day < DaysInMonth(x.year, x.month) then Date(x.year, x.month, x.day + 1)
    else if x.month < 12 then Date(x.year, x.month + 1, 1)
    else Date(x.year + 1, 1, 1)
  }

  const EPOCH := Date(1970, 1, 1)

  /** The date `n` days after the first of January 1970, counted one by one. */
  function Calendar(n: nat): Date {
    if n == 0 then EPOCH else NextDay(Calendar(n - 1))
  }

  // --------------------------------------------------------------- the algorithm

  const I32_MAX := 0x7fff_ffff

  /** A 32-bit signed number: conversions and arithmetic wrap around. */
  function I32(x: int): int {
    (x + 0x8000_0000) % 0x1_0000_0000 - 0x8000_0000
  }

  /** Division rounding toward zero, by a positive number. */
  function TruncDiv(a: int, b: int): int
    requires b > 0
  {
    if a >= 0 then a / b else -((-a) / b)
  }

  function EraOf(z: int): int {
    TruncDiv(if z >= 0 then z else z - 146096, 146097)
  }

  function YearOfEra(doe: int): int {
    (doe - doe / 1460 + doe / 36524 - doe / 146096) / 365
  }

  function DayOfYear(doe: int, yoe: int): int {
    doe - (365 * yoe + yoe / 4 - yoe / 100)
  }

  /** Month and day from the day of a year that starts in March. */
  function MonthOf(doy: int): int {
    var mp := (5 * doy + 2) / 153;
    if mp < 10 then mp + 3 else mp - 9
  }

  function DayOf(doy: int): int {
    doy - (153 * ((5 * doy + 2) / 153) + 2) / 5 + 1
  }

  /** The date of a day of an era, with 32-bit years. */
  function WrappedIn(era: int, doe: int): Date {
    var yoe := YearOfEra(doe);
    var y := I32(yoe + I32(I32(era) * 400));
    var doy := DayOfYear(doe, yoe);
    var m := MonthOf(doy);
    Date(I32(y + (if m <= 2 then 1 else 0)), m, DayOf(doy))
  }

  function CivilFromDays(days: int): Date {
    var z := days + 719468;
    WrappedIn(EraOf(z), z - EraOf(z) * 146097)
  }

  /** The date of a day of an era, with unbounded years. */
  function DateIn(era: int, doe: int): Date {
    var yoe := YearOfEra(doe);
    var doy := DayOfYear(doe, yoe);
    var m := MonthOf(doy);
    Date(yoe + era * 400 + (if m <= 2 then 1 else 0), m, DayOf(doy))
  }

  function CivilExact(days: int): Date {
    DateIn((days + 719468) / 146097, (days + 719468) % 146097)
  }

  /** The inverse: the day number of a date. */
  function DayNumber(x: Date): int {
    var y := if x.month <= 2 then x.year - 1 else x.year;
    var mp := if x.month > 2 then x.month - 3 else x.month + 9;
    var yoe := y % 400;
    y / 400 * 146097 + (365 * yoe + yoe / 4 - yoe / 100) + (153 * mp + 2) / 5 + x.day - 1 - 719468
  }

  // ------------------------------------------------------------ within an era

  /** The day of the era on which year `y` of the era starts. */
  function YearStart(y: int): int {
    365 * y + y / 4 - y / 100 + y / 400
  }

  /** A day of the era as century, four-year cycle, year of the cycle and day of the year. */
  datatype Place = Place(c: int, q: int, r: int, d: int)

  predicate ValidPlace(p: Place) {
    && 0 <= p.c <= 3 && 0 <= p.q <= 24 && 0 <= p.r <= 3 && 0 <= p.d <= 365
    && (p.d == 365 ==> p.r == 3 && (p.q == 24 ==> p.c == 3))
  }

  function DayOfEra(p: Place): int {
    36524 * p.c + 1461 * p.q + 365 * p.r + p.d
  }

  function YearAt(p: Place): int {
    100 * p.c + 4 * p.q + p.r
  }

  lemma PlaceOf(doe: int) returns (p: Place)
    requires 0 <= doe <= 146096
    ensures ValidPlace(p) && doe == DayOfEra(p)
  {
    var c := if doe == 146096 then 3 else doe / 36524;
    var m := doe - 36524 * c;
    var q := m / 1461;
    var n := m - 1461 * q;
    var r := if n == 1460 then 3 else n / 365;
    p := Place(c, q, r, n - 365 * r);
  }

  lemma YearOfPlace(p: Place)
    requires ValidPlace(p)
    ensures YearOfEra(DayOfEra(p)) == YearAt(p)
  {
    var doe := DayOfEra(p);
    assert doe / 36524 == p.c + (if doe == 146096 then 1 else 0);
    assert doe / 146096 == (if doe == 146096 then 1 else 0);
  }

  lemma StartOfPlace(p: Place)
    requires ValidPlace(p)
    ensures YearStart(YearAt(p)) == 36524 * p.c + 1461 * p.q + 365 * p.r
  {
    var y := YearAt(p);
    assert y / 4 == 25 * p.c + p.q && y / 100 == p.c && y / 400 == 0;
  }

  /** A year from March to February has 366 days exactly if its February is in a leap year. */
  lemma YearLength(y: int)
    requires 0 <= y <= 399
    ensures YearStart(y + 1) - YearStart(y) == if IsLeap(y + 1) then 366 else 365
  {
    var k := y + 1;
    assert k / 4 - y / 4 == if k % 4 == 0 then 1 else 0;
    assert k / 100 - y / 100 == if k % 100 == 0 then 1 else 0;
    assert k / 400 - y / 400 == if k % 400 == 0 then 1 else 0;
    assert k % 100 == 0 ==> k % 4 == 0;
    assert k % 400 == 0 ==> k % 100 == 0;
  }

  lemma LastDayIsLeap(p: Place)
    requires ValidPlace(p) && p.d == 365
    ensures IsLeap(YearAt(p) + 1)
  {
    var k := YearAt(p) + 1;
    assert k == 4 * (25 * p.c + p.q + 1);
    if p.q == 24 { assert k == 400; } else { assert k % 100 == 4 * (p.q + 1); }
  }

  lemma YearOfEraBounds(doe: int)
    requires 0 <= doe <= 146096
    ensures 0 <= YearOfEra(doe) <= 399
    ensures YearStart(YearOfEra(doe)) <= doe < YearStart(YearOfEra(doe) + 1)
  {
    var p := PlaceOf(doe);
    YearOfPlace(p);
    StartOfPlace(p);
    YearLength(YearAt(p));
    if p.d == 365 { LastDayIsLeap(p); }
  }

  lemma {:induction false} YearStartGrows(y: int, y': int)
    requires 0 <= y <= y' <= 400
    ensures YearStart(y) <= YearStart(y')
    decreases y' - y
  {
    if y < y' {
      YearLength(y);
      YearStartGrows(y + 1, y');
    }
  }

  lemma YearIsUnique(y: int, y': int, doe: int)
    requires 0 <= y <= 399 && 0 <= y' <= 399
    requires YearStart(y) <= doe < YearStart(y + 1) && YearStart(y') <= doe < YearStart(y' + 1)
    ensures y == y'
  {
    if y < y' { YearStartGrows(y + 1, y'); }
    if y' < y { YearStartGrows(y' + 1, y); }
  }

  lemma MonthDays(doy: int, year: int)
    requires 0 <= doy < (if IsLeap(year + 1) then 366 else 365)
    ensures 1 <= MonthOf(doy) <= 12
    ensures var m := MonthOf(doy); 1 <= DayOf(doy) <= DaysInMonth(if m <= 2 then year + 1 else year, m)
  {
  }

  lemma EraIsFloor(z: int)
    ensures EraOf(z) == z / 146097
  {
  }

  lemma LeapInEra(era: int, yoe: int)
    ensures IsLeap(yoe + era * 400) == IsLeap(yoe)
  {
    var y := yoe + era * 400;
    assert y / 4 == yoe / 4 + 100 * era;
    assert y / 100 == yoe / 100 + 4 * era;
    assert y / 400 == yoe / 400 + era;
  }

  // ------------------------------------------------------------------ main results

  lemma DateInIsValid(era: int, doe: int)
    requires 0 <= doe <= 146096
    ensures ValidDate(DateIn(era, doe))
  {
    var yoe := YearOfEra(doe);
    YearOfEraBounds(doe);
    YearLength(yoe);
    LeapInEra(era, yoe + 1);
    assert yoe / 400 == 0;
    MonthDays(DayOfYear(doe, yoe), yoe + era * 400);
  }

  /** Every day count gives a valid date. */
  lemma ExactIsValid(days: int)
    ensures ValidDate(CivilExact(days))
  {
    DateInIsValid((days + 719468) / 146097, (days + 719468) % 146097);
  }

  lemma EraAndYear(era: int, yoe: int)
    requires 0 <= yoe <= 399
    ensures (yoe + era * 400) / 400 == era && (yoe + era * 400) % 400 == yoe
  {
  }

  /** The date with these parts: the months are counted from March. */
  function Assemble(era: int, yoe: int, mp: int, day: int): Date {
    var m := if mp < 10 then mp + 3 else mp - 9;
    Date(yoe + era * 400 + (if m <= 2 then 1 else 0), m, day)
  }

  lemma NumberOfAssembled(era: int, yoe: int, mp: int, day: int)
    requires 0 <= yoe <= 399 && 0 <= mp <= 11
    ensures DayNumber(Assemble(era, yoe, mp, day)) ==
              era * 146097 + (365 * yoe + yoe / 4 - yoe / 100) + (153 * mp + 2) / 5 + day - 1 - 719468
  {
    EraAndYear(era, yoe);
  }

  lemma DayOfYearBounds(doe: int)
    requires 0 <= doe <= 146096
    ensures 0 <= DayOfYear(doe, YearOfEra(doe)) <= 365
  {
    YearOfEraBounds(doe);
    YearLength(YearOfEra(doe));
    assert YearOfEra(doe) / 400 == 0;
  }

  lemma MonthCount(doy: int)
    requires 0 <= doy <= 365
    ensures 0 <= (5 * doy + 2) / 153 <= 11
  {
  }

  lemma DaysAddUp(doe: int, yoe: int, mp: int, doy: int)
    requires doy == DayOfYear(doe, yoe) && mp == (5 * doy + 2) / 153
    ensures (365 * yoe + yoe / 4 - yoe / 100) + (153 * mp + 2) / 5 + DayOf(doy) - 1 == doe
  {
  }

  lemma NumberOfDateIn(era: int, doe: int)
    requires 0 <= doe <= 146096
    ensures DayNumber(DateIn(era, doe)) == era * 146097 + doe - 719468
  {
    var yoe := YearOfEra(doe);
    var doy := DayOfYear(doe, yoe);
    var mp := (5 * doy + 2) / 153;
    assert 0 <= mp <= 11 by { DayOfYearBounds(doe); MonthCount(doy); }
    assert 0 <= yoe <= 399 by { YearOfEraBounds(doe); }
    assert DateIn(era, doe) == Assemble(era, yoe, mp, DayOf(doy));
    NumberOfAssembled(era, yoe, mp, DayOf(doy));
    DaysAddUp(doe, yoe, mp, doy);
  }

  /** The day number formula inverts it ... */
  lemma NumberOfExact(days: int)
    ensures DayNumber(CivilExact(days)) == days
  {
    NumberOfDateIn((days + 719468) / 146097, (days + 719468) % 146097);
  }

  lemma DateInYear(x: Date)
    requires ValidDate(x)
    ensures var mp := if x.month > 2 then x.month - 3 else x.month + 9;
            var y := if x.month <= 2 then x.year - 1 else x.year;
            var doy := (153 * mp + 2) / 5 + x.day - 1;
            && 0 <= doy < (if IsLeap(y + 1) then 366 else 365) && MonthOf(doy) == x.month && DayOf(doy) == x.day
  {
  }

  lemma EraAndDay(era: int, doe: int)
    requires 0 <= doe <= 146096
    ensures (era * 146097 + doe) / 146097 == era && (era * 146097 + doe) % 146097 == doe
  {
  }

  /** A day within a year of the era, found again. */
  lemma DayInEra(yoe: int, doy: int)
    requires 0 <= yoe <= 399 && 0 <= doy < (if IsLeap(yoe + 1) then 366 else 365)
    ensures var doe := 365 * yoe + yoe / 4 - yoe / 100 + doy;
            0 <= doe <= 146096 && YearOfEra(doe) == yoe && DayOfYear(doe, yoe) == doy
  {
    var doe := 365 * yoe + yoe / 4 - yoe / 100 + doy;
    assert yoe / 400 == 0 && YearStart(yoe) + doy == doe;
    YearLength(yoe);
    YearStartGrows(yoe + 1, 400);
    YearStartGrows(0, yoe);
    YearOfEraBounds(doe);
    YearIsUnique(yoe, YearOfEra(doe), doe);
  }

  lemma ExactIn(era: int, doe: int, days: int)
    requires 0 <= doe <= 146096 && days == era * 146097 + doe - 719468
    ensures CivilExact(days) == DateIn(era, doe)
  {
    EraAndDay(era, doe);
  }

  lemma DateInParts(era: int, doe: int, yoe: int, doy: int)
    requires YearOfEra(doe) == yoe && DayOfYear(doe, yoe) == doy
    ensures DateIn(era, doe) ==
              Date(yoe + era * 400 + (if MonthOf(doy) <= 2 then 1 else 0), MonthOf(doy), DayOf(doy))
  {
  }

  /** ... and is inverted by it. */
  lemma ExactOfNumber(x: Date)
    requires ValidDate(x)
    ensures CivilExact(DayNumber(x)) == x
  {
    var y := if x.month <= 2 then x.year - 1 else x.year;
    var mp := if x.month > 2 then x.month - 3 else x.month + 9;
    var doy := (153 * mp + 2) / 5 + x.day - 1;
    var era, yoe := y / 400, y % 400;
    var doe := 365 * yoe + yoe / 4 - yoe / 100 + doy;
    assert 0 <= doy < (if IsLeap(yoe + 1) then 366 else 365) && MonthOf(doy) == x.month && DayOf(doy) == x.day by {
      DateInYear(x);
      LeapInEra(era, yoe + 1);
    }
    DayInEra(yoe, doy);
    DateInParts(era, doe, yoe, doy);
    ExactIn(era, doe, DayNumber(x));
  }

  lemma NextIsValid(x: Date)
    requires ValidDate(x)
    ensures ValidDate(NextDay(x))
  {
  }

  /** The step from the end of February, where the year of the era changes. */
  lemma FebruaryEnds(year: int)
    ensures DayNumber(Date(year, 3, 1)) == DayNumber(Date(year, 2, DaysInMonth(year, 2))) + 1
  {
    var era, yoe := (year - 1) / 400, (year - 1) % 400;
    assert year == yoe + 1 + era * 400;
    LeapInEra(era, yoe + 1);
    YearLength(yoe);
    assert yoe / 400 == 0;
    if yoe < 399 {
      EraAndYear(era, yoe + 1);
      assert (yoe + 1) / 400 == 0;
    } else {
      EraAndYear(era + 1, 0);
    }
  }

  /** The next calendar day has the next number. */
  lemma NextNumber(x: Date)
    requires ValidDate(x)
    ensures DayNumber(NextDay(x)) == DayNumber(x) + 1
  {
    if x.month == 2 && x.day == DaysInMonth(x.year, 2) {
      FebruaryEnds(x.year);
    }
  }

  lemma NextExact(days: int)
    ensures CivilExact(days + 1) == NextDay(CivilExact(days))
  {
    var x := CivilExact(days);
    ExactIsValid(days);
    NumberOfExact(days);
    NextNumber(x);
    NextIsValid(x);
    ExactOfNumber(NextDay(x));
  }

  /** `x` is the day with number `n`. */
  predicate IsDay(x: Date, n: int) {
    ValidDate(x) && DayNumber(x) == n
  }

  lemma NextIsDay(x: Date, n: int)
    requires IsDay(x, n)
    ensures IsDay(NextDay(x), n + 1)
  {
    NextNumber(x);
    NextIsValid(x);
  }

  lemma EpochIsDay()
    ensures IsDay(EPOCH, 0)
  {
  }

  lemma {:induction false} CalendarIsDay(n: nat)
    ensures IsDay(Calendar(n), n)
  {
    if n == 0 {
      EpochIsDay();
    } else {
      var x := Calendar(n - 1);
      CalendarIsDay(n - 1);
      NextIsDay(x, n - 1);
    }
  }

  /** Counting days one by one gives the same dates. */
  lemma ExactIsCalendar(n: nat)
    ensures CivilExact(n) == Calendar(n)
  {
    CalendarIsDay(n);
    ExactOfNumber(Calendar(n));
  }

  // ------------------------------------------------------------- 32-bit years

  lemma Wraps(x: int) returns (k: int)
    ensures I32(x) == x + k * 0x1_0000_0000
  {
    k := -((x + 0x8000_0000) / 0x1_0000_0000);
  }

  lemma WrapShift(x: int, k: int)
    ensures I32(x + k * 0x1_0000_0000) == I32(x)
  {
    var n := x + 0x8000_0000;
    assert (n + k * 0x1_0000_0000) / 0x1_0000_0000 == n / 0x1_0000_0000 + k;
  }

  lemma WrapsOnce(era: int, yoe: int, one: int)
    ensures I32(I32(yoe + I32(I32(era) * 400)) + one) == I32(yoe + era * 400 + one)
  {
    var a := Wraps(era);
    WrapShift(era * 400, 400 * a);
    var b := Wraps(era * 400);
    WrapShift(yoe + era * 400, b);
    var c := Wraps(yoe + era * 400);
    WrapShift(yoe + era * 400 + one, c);
  }

  /** Only the final year is wrapped: the wrap-arounds on the way do not matter. */
  lemma WrappedDate(era: int, doe: int)
    ensures WrappedIn(era, doe) == DateIn(era, doe).(year := I32(DateIn(era, doe).year))
  {
    var yoe := YearOfEra(doe);
    WrapsOnce(era, yoe, if MonthOf(DayOfYear(doe, yoe)) <= 2 then 1 else 0);
  }

  lemma WrappedYear(days: int)
    ensures CivilFromDays(days) == CivilExact(days).(year := I32(CivilExact(days).year))
  {
    var z := days + 719468;
    EraIsFloor(z);
    assert z - z / 146097 * 146097 == z % 146097;
    WrappedDate(z / 146097, z % 146097);
  }

  lemma {:induction false} YearsGrow(n: nat, m: nat)
    requires n <= m
    ensures Calendar(n).year <= Calendar(m).year
    decreases m
  {
    if n < m { YearsGrow(n, m - 1); }
  }

  /** The last day whose year is a 32-bit number. */
  const LAST_DAY := 784351576776

  lemma LastDayOfI32()
    ensures Calendar(LAST_DAY) == Date(I32_MAX, 12, 31)
  {
    var last := Date(I32_MAX, 12, 31);
    assert DayNumber(last) == LAST_DAY;
    CalendarIsDay(LAST_DAY);
    SameDay(last, Calendar(LAST_DAY), LAST_DAY);
  }

  lemma SameDay(x: Date, y: Date, n: int)
    requires IsDay(x, n) && IsDay(y, n)
    ensures x == y
  {
    ExactOfNumber(x);
    ExactOfNumber(y);
  }

  lemma YearFits(n: nat)
    ensures Calendar(n).year <= I32_MAX <==> n <= LAST_DAY
  {
    LastDayOfI32();
    if n <= LAST_DAY { YearsGrow(n, LAST_DAY); } else { YearsGrow(LAST_DAY + 1, n); }
  }

  lemma WrappedIsSame(x: Date, y: Date)
    requires y == x.(year := I32(x.year)) && x.year >= 0
    ensures y == x <==> x.year <= I32_MAX
  {
  }

  lemma WrappedCalendar(n: nat)
    ensures CivilFromDays(n) == Calendar(n).(year := I32(Calendar(n).year))
  {
    ExactIsCalendar(n);
    WrappedYear(n);
  }

  /** For every day count from the epoch, `civil_from_days` names the day the calendar
      names if and only if its year is a 32-bit number. */
  lemma CivilIsCalendar(n: nat)
    ensures CivilFromDays(n) == Calendar(n) <==> n <= LAST_DAY
  {
    WrappedCalendar(n);
    YearFits(n);
    YearsGrow(0, n);
    WrappedIsSame(Calendar(n), CivilFromDays(n));
  }
}
