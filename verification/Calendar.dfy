/** Time values, days, years and months as in section 21.4.1 of ECMA-262. */
module Calendar {
  /** The largest time value: 100 million days either side of the epoch. */
  const MAX_TIME: int := 8_640_000_000_000_000

  // Dafny's / and % round toward minus infinity for positive divisors, as floor and modulo do in the standard.

  function DayFromYear(y: int): int {
    365 * (y - 1970) + (y - 1969) / 4 - (y - 1901) / 100 + (y - 1601) / 400
  }

  predicate Leap(y: int) {
    y % 4 == 0 && (y % 100 != 0 || y % 400 == 0)
  }

  function DaysInYear(y: int): int {
    if Leap(y) then 366 else 365
  }

  /** Days of the year before month m (January is 0). */
  function MonthStart(m: int, leap: bool): int
    requires 0 <= m <= 12
  {
    var l := if leap then 1 else 0;
    match m
    case 0 => 0 case 1 => 31 case 2 => 59 + l case 3 => 90 + l case 4 => 120 + l case 5 => 151 + l case 6 => 181 + l
    case 7 => 212 + l case 8 => 243 + l case 9 => 273 + l case 10 => 304 + l case 11 => 334 + l case _ => 365 + l
  }

  function DaysInMonth(y: int, m: int): int
    requires 0 <= m < 12
  {
    MonthStart(m + 1, Leap(y)) - MonthStart(m, Leap(y))
  }

  function MakeTime(hour: int, minute: int, second: int, ms: int): int {
    hour * 3_600_000 + minute * 60_000 + second * 1_000 + ms
  }

  /** The day number of day `date` of month `month`, both of which may overflow in either direction. */
  function MakeDay(year: int, month: int, date: int): int {
    DayFromYear(year + month / 12) + MonthStart(month % 12, Leap(year + month / 12)) + date - 1
  }

  function MakeDate(day: int, time: int): int {
    day * 86_400_000 + time
  }

  /** The year in which day d falls. */
  function YearOf(d: int): (y: int)
    ensures DayFromYear(y) <= d < DayFromYear(y + 1)
  {
    if d < 0 then EpochIsEarly(d); SearchYear(d, 1970 + d) else SearchYear(d, 1970)
  }

  function SearchYear(d: int, y: int): (r: int)
    requires DayFromYear(y) <= d
    ensures DayFromYear(r) <= d < DayFromYear(r + 1)
    decreases d - DayFromYear(y)
  {
    YearsAdvance(y);
    if d < DayFromYear(y + 1) then y else SearchYear(d, y + 1)
  }

  /** The month (January is 0) of the k-th day of a year. */
  function MonthOf(k: int, leap: bool): (m: int)
    requires 0 <= k < if leap then 366 else 365
    ensures 0 <= m < 12 && MonthStart(m, leap) <= k < MonthStart(m + 1, leap)
  {
    MonthSearch(k, leap, 0)
  }

  function MonthSearch(k: int, leap: bool, m: int): (r: int)
    requires 0 <= m < 12 && MonthStart(m, leap) <= k < MonthStart(12, leap)
    ensures 0 <= r < 12 && MonthStart(r, leap) <= k < MonthStart(r + 1, leap)
    decreases 12 - m
  {
    if k < MonthStart(m + 1, leap) then m else MonthSearch(k, leap, m + 1)
  }

  /** A broken-down time; months and days count from 1. */
  datatype Fields = Fields(year: int, month: int, day: int, hour: int, minute: int, second: int, ms: int)

  predicate ValidDate(year: int, month: int, day: int) {
    1 <= month <= 12 && 1 <= day <= DaysInMonth(year, month - 1)
  }

  predicate ValidFields(f: Fields) {
    && ValidDate(f.year, f.month, f.day)
    && 0 <= f.hour < 24 && 0 <= f.minute < 60 && 0 <= f.second < 60 && 0 <= f.ms < 1_000
  }

  /** The date of the k-th day of year y, with the given time of day. */
  function DateInYear(y: int, k: int, hour: int, minute: int, second: int, ms: int): (f: Fields)
    requires 0 <= k < DaysInYear(y)
    ensures ValidDate(f.year, f.month, f.day) && f.year == y
    ensures MonthStart(f.month - 1, Leap(y)) + f.day - 1 == k
  {
    var m := MonthOf(k, Leap(y));
    Fields(y, m + 1, k - MonthStart(m, Leap(y)) + 1, hour, minute, second, ms)
  }

  /** The date of day number d, with the given time of day. */
  function DateAndClock(d: int, hour: int, minute: int, second: int, ms: int): (f: Fields)
    ensures ValidDate(f.year, f.month, f.day)
    ensures d == DayFromYear(f.year) + MonthStart(f.month - 1, Leap(f.year)) + f.day - 1
  {
    var y := YearOf(d);
    YearsAdvance(y);
    DateInYear(y, d - DayFromYear(y), hour, minute, second, ms)
  }

  function FieldsOf(t: int): (f: Fields)
    ensures ValidFields(f)
  {
    DateAndClock(t / 86_400_000, (t / 3_600_000) % 24, (t / 60_000) % 60, (t / 1_000) % 60, t % 1_000)
  }

  function TimeOf(f: Fields): int {
    MakeDate(MakeDay(f.year, f.month - 1, f.day), MakeTime(f.hour, f.minute, f.second, f.ms))
  }

  // ---- Years ----------------------------------------------------------------------

  lemma FourYears(y: int)
    ensures (y - 1968) / 4 - (y - 1969) / 4 == if y % 4 == 0 then 1 else 0
  {
  }

  lemma HundredYears(y: int)
    ensures (y - 1900) / 100 - (y - 1901) / 100 == if y % 100 == 0 then 1 else 0
  {
  }

  lemma FourHundredYears(y: int)
    ensures (y - 1600) / 400 - (y - 1601) / 400 == if y % 400 == 0 then 1 else 0
  {
  }

  lemma LeapRule(a: int, b: int, c: int, y: int)
    requires a == (if y % 4 == 0 then 1 else 0) && b == (if y % 100 == 0 then 1 else 0) && c == (if y % 400 == 0 then 1 else 0)
    ensures 365 + a - b + c == DaysInYear(y)
  {
    MultiplesOfHundred(y);
  }

  lemma MultiplesOfHundred(y: int)
    ensures y % 100 == 0 ==> y % 4 == 0
    ensures y % 400 == 0 ==> y % 100 == 0
  {
  }

  lemma YearsAdvance(y: int)
    ensures DayFromYear(y + 1) - DayFromYear(y) == DaysInYear(y)
  {
    FourYears(y);
    HundredYears(y);
    FourHundredYears(y);
    LeapRule((y - 1968) / 4 - (y - 1969) / 4, (y - 1900) / 100 - (y - 1901) / 100, (y - 1600) / 400 - (y - 1601) / 400, y);
  }

  lemma {:induction false} YearsAreOrdered(y: int, z: int)
    requires y <= z
    ensures 365 * (z - y) <= DayFromYear(z) - DayFromYear(y) <= 366 * (z - y)
    decreases z - y
  {
    if y < z {
      YearsAdvance(y);
      YearsAreOrdered(y + 1, z);
    }
  }

  /** Counting a year per day leads back far enough. */
  lemma EpochIsEarly(d: int)
    requires d < 0
    ensures DayFromYear(1970 + d) <= d
  {
    YearsAreOrdered(1970 + d, 1970);
  }

  /** A day falls in only one year. */
  lemma YearIsUnique(d: int, y: int)
    requires DayFromYear(y) <= d < DayFromYear(y + 1)
    ensures YearOf(d) == y
  {
    var z := YearOf(d);
    if z < y { YearsAreOrdered(z + 1, y); }
    if y < z { YearsAreOrdered(y + 1, z); }
  }

  lemma MonthsAreOrdered(a: int, b: int, leap: bool)
    requires 0 <= a <= b <= 12
    ensures MonthStart(a, leap) <= MonthStart(b, leap)
  {
  }

  lemma MonthIsUnique(k: int, leap: bool, m: int)
    requires 0 <= m < 12 && MonthStart(m, leap) <= k < MonthStart(m + 1, leap)
    ensures 0 <= k < MonthStart(12, leap) && MonthOf(k, leap) == m
  {
    MonthsAreOrdered(0, m, leap);
    MonthsAreOrdered(m + 1, 12, leap);
    var r := MonthOf(k, leap);
    if r < m { MonthsAreOrdered(r + 1, m, leap); }
    if m < r { MonthsAreOrdered(m + 1, r, leap); }
  }

  // ---- Broken-down time and time values are the same thing ------------------------

  lemma NestedUnits(t: int)
    ensures t / 60_000 == (t / 1_000) / 60
    ensures t / 3_600_000 == (t / 60_000) / 60
    ensures t / 86_400_000 == (t / 3_600_000) / 24
  {
  }

  lemma ClockReads(hour: int, minute: int, second: int, ms: int, d: int)
    requires 0 <= hour < 24 && 0 <= minute < 60 && 0 <= second < 60 && 0 <= ms < 1_000
    ensures var t := MakeDate(d, MakeTime(hour, minute, second, ms));
            && t / 86_400_000 == d && (t / 3_600_000) % 24 == hour && (t / 60_000) % 60 == minute
            && (t / 1_000) % 60 == second && t % 1_000 == ms
  {
    var t := MakeDate(d, MakeTime(hour, minute, second, ms));
    NestedUnits(t);
    var hours := d * 24 + hour;
    var minutes := hours * 60 + minute;
    var seconds := minutes * 60 + second;
    assert t == seconds * 1_000 + ms;
    assert t / 1_000 == seconds;
    assert seconds / 60 == minutes;
    assert minutes / 60 == hours;
    assert hours / 24 == d;
  }

  lemma ClockTells(t: int)
    ensures t == MakeDate(t / 86_400_000, MakeTime((t / 3_600_000) % 24, (t / 60_000) % 60, (t / 1_000) % 60, t % 1_000))
  {
    NestedUnits(t);
  }

  /** A month within the year does not carry over. */
  lemma PlainMonth(year: int, month: int, day: int)
    requires 1 <= month <= 12
    ensures MakeDay(year, month - 1, day) == DayFromYear(year) + MonthStart(month - 1, Leap(year)) + day - 1
  {
    assert (month - 1) / 12 == 0 && (month - 1) % 12 == month - 1;
  }

  lemma InYear(d: int, y: int, k: int, hour: int, minute: int, second: int, ms: int)
    requires d == DayFromYear(y) + k && 0 <= k < DaysInYear(y)
    ensures DateAndClock(d, hour, minute, second, ms) == DateInYear(y, k, hour, minute, second, ms)
  {
    YearsAdvance(y);
    YearIsUnique(d, y);
  }

  lemma DayOfDate(d: int, year: int, month: int, day: int)
    requires 1 <= month <= 12 && d == DayFromYear(year) + MonthStart(month - 1, Leap(year)) + day - 1
    ensures MakeDay(year, month - 1, day) == d
  {
    PlainMonth(year, month, day);
  }

  lemma DayOfDateAndClock(d: int, hour: int, minute: int, second: int, ms: int)
    ensures var f := DateAndClock(d, hour, minute, second, ms);
            MakeDay(f.year, f.month - 1, f.day) == d
  {
    var f := DateAndClock(d, hour, minute, second, ms);
    DayOfDate(d, f.year, f.month, f.day);
  }

  lemma TimeOfClock(d: int, hour: int, minute: int, second: int, ms: int)
    ensures TimeOf(DateAndClock(d, hour, minute, second, ms)) == MakeDate(d, MakeTime(hour, minute, second, ms))
  {
    DayOfDateAndClock(d, hour, minute, second, ms);
  }

  /** Every time value is the time of its fields. */
  lemma TimeOfFields(t: int)
    ensures TimeOf(FieldsOf(t)) == t
  {
    TimeOfClock(t / 86_400_000, (t / 3_600_000) % 24, (t / 60_000) % 60, (t / 1_000) % 60, t % 1_000);
    ClockTells(t);
  }

  /** The k-th day of a year, and back. */
  lemma DayInYear(f: Fields)
    requires ValidDate(f.year, f.month, f.day)
    ensures var k := MonthStart(f.month - 1, Leap(f.year)) + f.day - 1;
            0 <= k < DaysInYear(f.year) && DateInYear(f.year, k, f.hour, f.minute, f.second, f.ms) == f
  {
    MonthIsUnique(MonthStart(f.month - 1, Leap(f.year)) + f.day - 1, Leap(f.year), f.month - 1);
  }

  lemma DateOfDay(f: Fields)
    requires ValidDate(f.year, f.month, f.day)
    ensures DateAndClock(MakeDay(f.year, f.month - 1, f.day), f.hour, f.minute, f.second, f.ms) == f
  {
    var k := MonthStart(f.month - 1, Leap(f.year)) + f.day - 1;
    PlainMonth(f.year, f.month, f.day);
    DayInYear(f);
    InYear(MakeDay(f.year, f.month - 1, f.day), f.year, k, f.hour, f.minute, f.second, f.ms);
  }

  lemma FieldsOfClock(d: int, hour: int, minute: int, second: int, ms: int)
    requires 0 <= hour < 24 && 0 <= minute < 60 && 0 <= second < 60 && 0 <= ms < 1_000
    ensures FieldsOf(MakeDate(d, MakeTime(hour, minute, second, ms))) == DateAndClock(d, hour, minute, second, ms)
  {
    ClockReads(hour, minute, second, ms, d);
  }

  lemma FieldsAtDay(f: Fields, d: int, t: int)
    requires ValidFields(f) && t == MakeDate(d, MakeTime(f.hour, f.minute, f.second, f.ms))
    requires DateAndClock(d, f.hour, f.minute, f.second, f.ms) == f
    ensures FieldsOf(t) == f
  {
    FieldsOfClock(d, f.hour, f.minute, f.second, f.ms);
  }

  lemma FieldsOnDay(f: Fields, d: int, t: int)
    requires ValidFields(f) && t == MakeDate(d, MakeTime(f.hour, f.minute, f.second, f.ms))
    requires d == MakeDay(f.year, f.month - 1, f.day)
    ensures FieldsOf(t) == f
  {
    assert DateAndClock(d, f.hour, f.minute, f.second, f.ms) == f by { DateOfDay(f); }
    FieldsAtDay(f, d, t);
  }

  /** Every valid broken-down time is what its time value breaks down into. */
  lemma FieldsOfTime(f: Fields, t: int)
    requires ValidFields(f) && TimeOf(f) == t
    ensures FieldsOf(t) == f
  {
    FieldsOnDay(f, MakeDay(f.year, f.month - 1, f.day), t);
  }

  // ---- One day after the other ----------------------------------------------------

  /** How many days the month has, January being 1. */
  function MonthLength(year: int, month: int): int {
    match month
    case 2 => if year % 4 == 0 && (year % 100 != 0 || year % 400 == 0) then 29 else 28
    case 4 => 30 case 6 => 30 case 9 => 30 case 11 => 30
    case _ => 31
  }

  /** The same time on the next day of the calendar. */
  function NextDay(f: Fields): Fields {
    if f.day < MonthLength(f.year, f.month) then f.(day := f.day + 1)
    else if f.month < 12 then f.(month := f.month + 1, day := 1)
    else f.(year := f.year + 1, month := 1, day := 1)
  }

  lemma MonthsAreLong(year: int, month: int)
    requires 1 <= month <= 12
    ensures DaysInMonth(year, month - 1) == MonthLength(year, month) >= 28
  {
  }

  lemma NextDayIsValid(f: Fields)
    requires ValidFields(f)
    ensures ValidFields(NextDay(f))
  {
    MonthsAreLong(f.year, f.month);
    if f.month < 12 { MonthsAreLong(f.year, f.month + 1); }
    MonthsAreLong(f.year + 1, 1);
  }

  lemma MonthsFollow(year: int, month: int)
    requires 1 <= month <= 12
    ensures MonthStart(month, Leap(year)) == MonthStart(month - 1, Leap(year)) + MonthLength(year, month)
    ensures MonthStart(0, Leap(year)) == 0 && MonthStart(12, Leap(year)) == DaysInYear(year)
  {
    MonthsAreLong(year, month);
  }

  lemma FirstOfNextMonth(year: int, month: int)
    requires 1 <= month <= 11
    ensures MakeDay(year, month, 1) == MakeDay(year, month - 1, MonthLength(year, month)) + 1
  {
    MonthsFollow(year, month);
    PlainMonth(year, month, MonthLength(year, month));
    PlainMonth(year, month + 1, 1);
  }

  lemma FirstOfNextYear(year: int)
    ensures MakeDay(year + 1, 0, 1) == MakeDay(year, 11, MonthLength(year, 12)) + 1
  {
    MonthsFollow(year, 12);
    MonthsFollow(year + 1, 1);
    YearsAdvance(year);
    PlainMonth(year, 12, MonthLength(year, 12));
    PlainMonth(year + 1, 1, 1);
  }

  lemma NextOfMonth(year: int, month: int, day: int)
    requires 1 <= month <= 12
    ensures MakeDay(year, month - 1, day + 1) == MakeDay(year, month - 1, day) + 1
  {
  }

  predicate OneOn(year: int, month: int, day: int, year': int, month': int, day': int) {
    MakeDay(year', month' - 1, day') == MakeDay(year, month - 1, day) + 1
  }

  lemma NextOfDate(y: int, m: int, d: int, y': int, m': int, d': int)
    requires 1 <= m <= 12 && 1 <= d <= MonthLength(y, m)
    requires if d < MonthLength(y, m) then y' == y && m' == m && d' == d + 1
             else if m < 12 then y' == y && m' == m + 1 && d' == 1 else y' == y + 1 && m' == 1 && d' == 1
    ensures OneOn(y, m, d, y', m', d')
  {
    if d < MonthLength(y, m) {
      NextOfMonth(y, m, d);
    } else if m < 12 {
      FirstOfNextMonth(y, m);
    } else {
      FirstOfNextYear(y);
    }
  }

  lemma NextDayIsOneOn(f: Fields)
    requires ValidFields(f)
    ensures var g := NextDay(f); OneOn(f.year, f.month, f.day, g.year, g.month, g.day)
  {
    var g := NextDay(f);
    MonthsAreLong(f.year, f.month);
    NextOfDate(f.year, f.month, f.day, g.year, g.month, g.day);
  }

  lemma TimeOfNextDay(f: Fields)
    requires ValidFields(f)
    ensures TimeOf(NextDay(f)) == TimeOf(f) + 86_400_000
  {
    NextDayIsOneOn(f);
  }

  lemma FieldsOfNextDay(t: int, f: Fields)
    requires ValidFields(f) && TimeOf(f) == t
    ensures FieldsOf(t + 86_400_000) == NextDay(f)
  {
    TimeOfNextDay(f);
    NextDayIsValid(f);
    FieldsOfTime(NextDay(f), t + 86_400_000);
  }

  lemma ClockOfDateAndClock(d: int, hour: int, minute: int, second: int, ms: int)
    ensures var f := DateAndClock(d, hour, minute, second, ms);
            f.hour == hour && f.minute == minute && f.second == second && f.ms == ms
  {
  }

  lemma ClockCounts(t: int)
    ensures var f := FieldsOf(t); ((f.hour * 60 + f.minute) * 60 + f.second) * 1_000 + f.ms == t % 86_400_000
  {
    ClockOfDateAndClock(t / 86_400_000, (t / 3_600_000) % 24, (t / 60_000) % 60, (t / 1_000) % 60, t % 1_000);
    ClockOfDay(t);
  }

  /**
   * The calendar from the epoch on: midnight of 1 January 1970 is time 0, a day later it is the same time on the next
   * day, and within the day the clock counts hours, minutes, seconds and milliseconds.
   */
  lemma DaysFollowDays(epoch: Fields, t: int)
    ensures epoch == Fields(1970, 1, 1, 0, 0, 0, 0) ==> TimeOf(epoch) == 0
    ensures FieldsOf(t + 86_400_000) == NextDay(FieldsOf(t))
    ensures var f := FieldsOf(t); ((f.hour * 60 + f.minute) * 60 + f.second) * 1_000 + f.ms == t % 86_400_000
  {
    if epoch == Fields(1970, 1, 1, 0, 0, 0, 0) { EpochIsMidnight(epoch); }
    TimeOfFields(t);
    FieldsOfNextDay(t, FieldsOf(t));
    ClockCounts(t);
  }

  lemma EpochIsMidnight(f: Fields)
    requires f.year == 1970 && f.month == 1 && f.day == 1 && f.hour == 0 && f.minute == 0 && f.second == 0 && f.ms == 0
    ensures TimeOf(f) == 0
  {
    EpochIsDayZero(f.year);
  }

  lemma EpochIsDayZero(year: int)
    requires year == 1970
    ensures MakeDay(year, 0, 1) == 0
  {
    PlainMonth(year, 1, 1);
    MonthsFollow(year, 1);
    assert DayFromYear(year) == 0;
  }

  lemma ClockOfDay(t: int)
    ensures (((t / 3_600_000) % 24 * 60 + (t / 60_000) % 60) * 60 + (t / 1_000) % 60) * 1_000 + t % 1_000 == t % 86_400_000
  {
    ClockTells(t);
    assert 0 <= (((t / 3_600_000) % 24 * 60 + (t / 60_000) % 60) * 60 + (t / 1_000) % 60) * 1_000 + t % 1_000 < 86_400_000;
    assert t == t / 86_400_000 * 86_400_000 + t % 86_400_000;
  }
}
