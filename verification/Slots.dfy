/** Tashkent booking slots and UTC instants: the conversions of the order contract, over ISO strings. */
module Slots {
  import opened Prelude
  import opened Calendar
  import opened Orders

  // ---- Digits ---------------------------------------------------------------------

  predicate IsDigit(c: char) {
    '0' <= c <= '9'
  }

  function Digit(n: int): (c: char)
    requires 0 <= n < 10
    ensures IsDigit(c) && Value(c) == n
  {
    ['0', '1', '2', '3', '4', '5', '6', '7', '8', '9'][n]
  }

  function Value(c: char): (n: int)
    requires IsDigit(c)
    ensures 0 <= n < 10
  {
    c as int - '0' as int
  }

  lemma DigitOfValue(c: char)
    requires IsDigit(c)
    ensures Digit(Value(c)) == c
  {
  }

  function Two(a: char, b: char): (n: int)
    requires IsDigit(a) && IsDigit(b)
    ensures 0 <= n < 100
  {
    10 * Value(a) + Value(b)
  }

  // ---- ISO strings ----------------------------------------------------------------

  function DateString(year: int, month: int, day: int): (s: string)
    requires 0 <= year < 10_000 && 0 <= month < 100 && 0 <= day < 100
    ensures |s| == 10
  {
    [Digit(year / 1_000), Digit(year / 100 % 10), Digit(year / 10 % 10), Digit(year % 10), '-',
     Digit(month / 10), Digit(month % 10), '-', Digit(day / 10), Digit(day % 10)]
  }

  function SlotString(hour: int, minute: int): (s: string)
    requires 0 <= hour < 100 && 0 <= minute < 100
    ensures |s| == 5
  {
    [Digit(hour / 10), Digit(hour % 10), ':', Digit(minute / 10), Digit(minute % 10)]
  }

  predicate IsDate(s: string) {
    && |s| == 10 && s[4] == '-' && s[7] == '-'
    && IsDigit(s[0]) && IsDigit(s[1]) && IsDigit(s[2]) && IsDigit(s[3])
    && IsDigit(s[5]) && IsDigit(s[6]) && IsDigit(s[8]) && IsDigit(s[9])
  }

  predicate IsSlot(s: string) {
    |s| == 5 && IsDigit(s[0]) && IsDigit(s[1]) && s[2] == ':' && IsDigit(s[3]) && IsDigit(s[4])
  }

  function YearIn(s: string): (y: int)
    requires IsDate(s)
    ensures 0 <= y < 10_000
  {
    100 * Two(s[0], s[1]) + Two(s[2], s[3])
  }

  function MonthIn(s: string): (m: int)
    requires IsDate(s)
    ensures 0 <= m < 100
  {
    Two(s[5], s[6])
  }

  function DayIn(s: string): (d: int)
    requires IsDate(s)
    ensures 0 <= d < 100
  {
    Two(s[8], s[9])
  }

  function HourIn(s: string): (h: int)
    requires IsSlot(s)
    ensures 0 <= h < 100
  {
    Two(s[0], s[1])
  }

  function MinuteIn(s: string): (m: int)
    requires IsSlot(s)
    ensures 0 <= m < 100
  {
    Two(s[3], s[4])
  }

  lemma TwoDigits(n: int)
    requires 0 <= n < 100
    ensures Two(Digit(n / 10), Digit(n % 10)) == n
  {
  }

  lemma DigitsOfTwo(a: char, b: char)
    requires IsDigit(a) && IsDigit(b)
    ensures Two(a, b) / 10 == Value(a) && Two(a, b) % 10 == Value(b)
    ensures Digit(Two(a, b) / 10) == a && Digit(Two(a, b) % 10) == b
  {
    DigitOfValue(a);
    DigitOfValue(b);
  }

  /** Dates and slots read back as they were written. */
  lemma DateReads(year: int, month: int, day: int)
    requires 0 <= year < 10_000 && 0 <= month < 100 && 0 <= day < 100
    ensures var s := DateString(year, month, day); IsDate(s) && YearIn(s) == year && MonthIn(s) == month && DayIn(s) == day
  {
    TwoDigits(month);
    TwoDigits(day);
    TwoDigits(year / 100);
    TwoDigits(year % 100);
    YearDigits(year);
  }

  lemma YearDigits(year: int)
    requires 0 <= year < 10_000
    ensures year / 1_000 == year / 100 / 10 && year / 10 % 10 == year % 100 / 10 && year % 10 == year % 100 % 10
    ensures 100 * (year / 100) + year % 100 == year
  {
  }

  lemma SlotReads(hour: int, minute: int)
    requires 0 <= hour < 100 && 0 <= minute < 100
    ensures var s := SlotString(hour, minute); IsSlot(s) && HourIn(s) == hour && MinuteIn(s) == minute
  {
    TwoDigits(hour);
    TwoDigits(minute);
  }

  lemma DateWrites(s: string)
    requires IsDate(s)
    ensures DateString(YearIn(s), MonthIn(s), DayIn(s)) == s
  {
    var y := YearIn(s);
    YearDigits(y);
    assert y / 100 == Two(s[0], s[1]) && y % 100 == Two(s[2], s[3]);
    DigitsOfTwo(s[0], s[1]);
    DigitsOfTwo(s[2], s[3]);
    DigitsOfTwo(s[5], s[6]);
    DigitsOfTwo(s[8], s[9]);
  }

  lemma SlotWrites(s: string)
    requires IsSlot(s)
    ensures SlotString(HourIn(s), MinuteIn(s)) == s
  {
    DigitsOfTwo(s[0], s[1]);
    DigitsOfTwo(s[3], s[4]);
  }

  // ---- Date.prototype.toISOString and Date.parse ----------------------------------

  predicate Representable(t: int) {
    -MAX_TIME <= t <= MAX_TIME
  }

  predicate SixDigitYear(y: int) {
    -1_000_000 < y < 1_000_000
  }

  function SixDigits(sign: char, a: int): (s: string)
    requires 0 <= a < 1_000_000
    ensures |s| == 7
  {
    var b, c, d := a / 10_000, a / 100 % 100, a % 100;
    [sign, Digit(b / 10), Digit(b % 10), Digit(c / 10), Digit(c % 10), Digit(d / 10), Digit(d % 10)]
  }

  /** Four digits, or a sign and six digits outside 0..9999. */
  function YearString(y: int): (s: string)
    requires SixDigitYear(y)
    ensures |s| == if 0 <= y < 10_000 then 4 else 7
  {
    if 0 <= y < 10_000 then [Digit(y / 1_000), Digit(y / 100 % 10), Digit(y / 10 % 10), Digit(y % 10)]
    else if y < 0 then SixDigits('-', -y)
    else SixDigits('+', y)
  }

  function TailString(f: Fields): (s: string)
    requires ValidFields(f)
    ensures |s| == 20
  {
    ['-', Digit(f.month / 10), Digit(f.month % 10), '-', Digit(f.day / 10), Digit(f.day % 10), 'T',
     Digit(f.hour / 10), Digit(f.hour % 10), ':', Digit(f.minute / 10), Digit(f.minute % 10), ':',
     Digit(f.second / 10), Digit(f.second % 10), '.', Digit(f.ms / 100), Digit(f.ms / 10 % 10), Digit(f.ms % 10), 'Z']
  }

  function IsoString(f: Fields): string
    requires ValidFields(f) && SixDigitYear(f.year)
  {
    YearString(f.year) + TailString(f)
  }

  function ToIso(t: int): string
    requires Representable(t)
  {
    YearFits(t);
    IsoString(FieldsOf(t))
  }

  predicate IsTail(s: string) {
    && |s| == 20
    && s[0] == '-' && s[3] == '-' && s[6] == 'T' && s[9] == ':' && s[12] == ':' && s[15] == '.' && s[19] == 'Z'
    && IsDigit(s[1]) && IsDigit(s[2]) && IsDigit(s[4]) && IsDigit(s[5]) && IsDigit(s[7]) && IsDigit(s[8])
    && IsDigit(s[10]) && IsDigit(s[11]) && IsDigit(s[13]) && IsDigit(s[14])
    && IsDigit(s[16]) && IsDigit(s[17]) && IsDigit(s[18])
  }

  function ReadTail(year: int, s: string): Fields
    requires IsTail(s)
  {
    Fields(year, Two(s[1], s[2]), Two(s[4], s[5]), Two(s[7], s[8]), Two(s[10], s[11]), Two(s[13], s[14]),
           10 * Two(s[16], s[17]) + Value(s[18]))
  }

  predicate IsYear(s: string) {
    if |s| == 4 then IsDigit(s[0]) && IsDigit(s[1]) && IsDigit(s[2]) && IsDigit(s[3])
    else
      && |s| == 7 && (s[0] == '+' || s[0] == '-')
      && IsDigit(s[1]) && IsDigit(s[2]) && IsDigit(s[3]) && IsDigit(s[4]) && IsDigit(s[5]) && IsDigit(s[6])
  }

  function ReadYear(s: string): int
    requires IsYear(s)
  {
    if |s| == 4 then 100 * Two(s[0], s[1]) + Two(s[2], s[3])
    else (if s[0] == '-' then -1 else 1) * (10_000 * Two(s[1], s[2]) + 100 * Two(s[3], s[4]) + Two(s[5], s[6]))
  }

  /** Reads the format that ToIso writes; a year is never taken to be of the twentieth century here. */
  function ParseIso(s: string): Option<int> {
    var n := |s| - 20;
    if n != 4 && n != 7 then None
    else if !IsYear(s[..n]) || !IsTail(s[n..]) then None
    else
      var f := ReadTail(ReadYear(s[..n]), s[n..]);
      if ValidFields(f) then Some(TimeOf(f)) else None
  }

  lemma YearFits(t: int)
    requires Representable(t)
    ensures SixDigitYear(FieldsOf(t).year)
  {
    var d := t / 86_400_000;
    var y := YearOf(d);
    if y >= 1_000_000 { YearsAreOrdered(1970, y); }
    if y <= -1_000_000 { YearsAreOrdered(y + 1, 1970); }
  }

  lemma FourDigitsRead(y: int)
    requires 0 <= y < 10_000
    ensures IsYear(YearString(y)) && ReadYear(YearString(y)) == y
  {
    TwoDigits(y / 100);
    TwoDigits(y % 100);
    YearDigits(y);
  }

  lemma Hundreds(a: int)
    requires 0 <= a < 1_000_000
    ensures 10_000 * (a / 10_000) + 100 * (a / 100 % 100) + a % 100 == a
    ensures 0 <= a / 10_000 < 100
  {
  }

  lemma SixDigitsRead(sign: char, a: int)
    requires 0 <= a < 1_000_000 && (sign == '+' || sign == '-')
    ensures IsYear(SixDigits(sign, a)) && ReadYear(SixDigits(sign, a)) == (if sign == '-' then -1 else 1) * a
  {
    Hundreds(a);
    var b, c, d := a / 10_000, a / 100 % 100, a % 100;
    TwoDigits(b);
    TwoDigits(c);
    TwoDigits(d);
    ReadSix(SixDigits(sign, a), b, c, d);
  }

  lemma ReadSix(s: string, b: int, c: int, d: int)
    requires |s| == 7 && IsYear(s)
    requires Two(s[1], s[2]) == b && Two(s[3], s[4]) == c && Two(s[5], s[6]) == d
    ensures ReadYear(s) == (if s[0] == '-' then -1 else 1) * (10_000 * b + 100 * c + d)
  {
  }

  lemma YearReads(y: int)
    requires SixDigitYear(y)
    ensures IsYear(YearString(y)) && ReadYear(YearString(y)) == y
  {
    if 0 <= y < 10_000 {
      FourDigitsRead(y);
    } else if y < 0 {
      SixDigitsRead('-', -y);
    } else {
      SixDigitsRead('+', y);
    }
  }

  lemma TailReads(f: Fields)
    requires ValidFields(f)
    ensures IsTail(TailString(f)) && ReadTail(f.year, TailString(f)) == f
  {
    TwoDigits(f.month);
    TwoDigits(f.day);
    TwoDigits(f.hour);
    TwoDigits(f.minute);
    TwoDigits(f.second);
    TwoDigits(f.ms / 10);
    assert f.ms / 100 == f.ms / 10 / 10;
  }

  /** Every representable instant survives printing and parsing. */
  lemma ParseOfIso(t: int)
    requires Representable(t)
    ensures ParseIso(ToIso(t)) == Some(t)
  {
    YearFits(t);
    var f := FieldsOf(t);
    IsoReads(f);
    TimeOfFields(t);
  }

  lemma IsoReads(f: Fields)
    requires ValidFields(f) && SixDigitYear(f.year)
    ensures ParseIso(IsoString(f)) == Some(TimeOf(f))
  {
    var y := YearString(f.year);
    var s := IsoString(f);
    assert s[..|y|] == y && s[|y|..] == TailString(f);
    YearReads(f.year);
    TailReads(f);
  }

  // ---- Slots ----------------------------------------------------------------------

  /** Tashkent is five hours ahead of UTC all year round. */
  function Ahead(t: int): int {
    t + 18_000_000
  }

  /** Years 0 to 99 stand for 1900 to 1999 in Date.UTC. */
  function FullYear(year: int): int {
    if 0 <= year <= 99 then 1900 + year else year
  }

  function DateUtc(year: int, month: int, day: int, hour: int, minute: int): int {
    MakeDate(MakeDay(FullYear(year), month, day), MakeTime(hour, minute, 0, 0))
  }

  datatype LocalSlot = LocalSlot(dateStr: string, slot: string)

  function SlotInstant(dateStr: string, slot: string): int
    requires IsDate(dateStr) && IsSlot(slot)
  {
    DateUtc(YearIn(dateStr), MonthIn(dateStr) - 1, DayIn(dateStr), HourIn(slot) - 5, MinuteIn(slot))
  }

  /** A date and a time of day in Tashkent, as a UTC instant. Days, months, hours and minutes may overflow. */
  function SlotToUtcIso(dateStr: string, slot: string): string
    requires IsDate(dateStr) && IsSlot(slot)
  {
    InstantIsRepresentable(dateStr, slot);
    ToIso(SlotInstant(dateStr, slot))
  }

  /** The date and time of day in Tashkent of a UTC instant; None where the source raises a RangeError. */
  function UtcIsoToSlot(iso: string): Option<LocalSlot> {
    match ParseIso(iso)
    case None => None
    case Some(t) =>
      if !Representable(Ahead(t)) then None
      else Some(LocalSlot(ToIso(Ahead(t))[..10], ToIso(Ahead(t))[11..16]))
  }

  lemma YearIsNear(y: int)
    requires -10 <= y <= 12_000
    ensures -1_000_000 <= DayFromYear(y) <= 5_000_000
  {
    if y < 1970 { YearsAreOrdered(y, 1970); } else { YearsAreOrdered(1970, y); }
  }

  lemma InstantIsNear(year: int, month: int, day: int, hour: int, minute: int)
    requires 0 <= year < 10_000 && -1 <= month < 99 && 0 <= day < 100 && -5 <= hour < 100 && 0 <= minute < 100
    ensures Representable(DateUtc(year, month, day, hour, minute))
  {
    var y := FullYear(year) + month / 12;
    YearIsNear(y);
    MonthsAreOrdered(0, month % 12, Leap(y));
    MonthsAreOrdered(month % 12, 12, Leap(y));
  }

  lemma InstantIsRepresentable(dateStr: string, slot: string)
    requires IsDate(dateStr) && IsSlot(slot)
    ensures Representable(SlotInstant(dateStr, slot)) && Representable(Ahead(SlotInstant(dateStr, slot)))
    ensures Ahead(SlotInstant(dateStr, slot))
            == DateUtc(YearIn(dateStr), MonthIn(dateStr) - 1, DayIn(dateStr), HourIn(slot), MinuteIn(slot))
  {
    InstantIsNear(YearIn(dateStr), MonthIn(dateStr) - 1, DayIn(dateStr), HourIn(slot) - 5, MinuteIn(slot));
    InstantIsNear(YearIn(dateStr), MonthIn(dateStr) - 1, DayIn(dateStr), HourIn(slot), MinuteIn(slot));
  }

  /** What the two slices of an ISO string hold. */
  lemma IsoSlices(f: Fields)
    requires ValidFields(f) && SixDigitYear(f.year)
    ensures |IsoString(f)| >= 24
    ensures 0 <= f.year < 10_000 ==>
              && IsoString(f)[..10] == DateString(f.year, f.month, f.day)
              && IsoString(f)[11..16] == SlotString(f.hour, f.minute)
    ensures !(0 <= f.year < 10_000) ==> !IsDate(IsoString(f)[..10])
  {
    var y, tail, s := YearString(f.year), TailString(f), IsoString(f);
    if 0 <= f.year < 10_000 {
      assert s[..10] == y + tail[..6];
      assert s[11..16] == tail[7..12];
    } else {
      assert s[0] == y[0];
    }
  }

  lemma SlicedIso(u: int)
    requires Representable(u)
    ensures var f := FieldsOf(u);
            && |ToIso(u)| >= 24
            && (0 <= f.year < 10_000 ==>
                  && ToIso(u)[..10] == DateString(f.year, f.month, f.day)
                  && ToIso(u)[11..16] == SlotString(f.hour, f.minute))
            && (!(0 <= f.year < 10_000) ==> !IsDate(ToIso(u)[..10]))
  {
    YearFits(u);
    IsoSlices(FieldsOf(u));
  }

  predicate Shows(r: Option<LocalSlot>, f: Fields)
    requires ValidFields(f)
  {
    && r.Some?
    && (0 <= f.year < 10_000 ==> r == Some(LocalSlot(DateString(f.year, f.month, f.day), SlotString(f.hour, f.minute))))
    && (!(0 <= f.year < 10_000) ==> !IsDate(r.value.dateStr))
  }

  /** The local slot of an instant, by the fields of the instant five hours later. */
  lemma LocalSlotOf(t: int)
    requires Representable(t) && Representable(Ahead(t))
    ensures Shows(UtcIsoToSlot(ToIso(t)), FieldsOf(Ahead(t)))
  {
    ParseOfIso(t);
    SlicedIso(Ahead(t));
  }

  predicate ValidLocal(year: int, month: int, day: int, hour: int, minute: int) {
    ValidDate(year, month, day) && 0 <= hour < 24 && 0 <= minute < 60
  }

  lemma FieldsAt(u: int, d: int, hour: int, minute: int, g: Fields)
    requires 0 <= hour < 24 && 0 <= minute < 60
    requires u == MakeDate(d, MakeTime(hour, minute, 0, 0)) && DateAndClock(d, hour, minute, 0, 0) == g
    ensures FieldsOf(u) == g
  {
    FieldsOfClock(d, hour, minute, 0, 0);
  }

  lemma TimeOfLocal(u: int, g: Fields)
    requires u == MakeDate(MakeDay(g.year, g.month - 1, g.day), MakeTime(g.hour, g.minute, 0, 0)) && g.second == 0 && g.ms == 0
    ensures TimeOf(g) == u
  {
  }

  lemma YearNotBefore(year: int, d: int)
    requires DayFromYear(year) <= d
    ensures YearOf(d) >= year
  {
    if YearOf(d) < year { YearsAreOrdered(YearOf(d) + 1, year); }
  }

  lemma DayNotBefore(year: int, month: int, day: int)
    requires 1 <= month <= 12 && 1 <= day
    ensures MakeDay(year, month - 1, day) >= DayFromYear(year)
  {
    PlainMonth(year, month, day);
    MonthsAreOrdered(0, month - 1, Leap(year));
  }

  /** Whatever the day of the month, a date of a year falls in that year or later. */
  lemma NotBefore(u: int, year: int, month: int, day: int, hour: int, minute: int)
    requires 1 <= month <= 12 && 1 <= day && 0 <= hour < 24 && 0 <= minute < 60
    requires u == MakeDate(MakeDay(year, month - 1, day), MakeTime(hour, minute, 0, 0))
    ensures FieldsOf(u).year >= year
  {
    var d := MakeDay(year, month - 1, day);
    DayNotBefore(year, month, day);
    YearNotBefore(year, d);
    FieldsAt(u, d, hour, minute, DateAndClock(d, hour, minute, 0, 0));
  }

  /** How the fields of a local time follow from the numbers it was made of. */
  predicate MadeOf(f: Fields, year: int, month: int, day: int, hour: int, minute: int) {
    && ValidFields(f)
    && (ValidLocal(year, month, day, hour, minute) ==> f == Fields(year, month, day, hour, minute, 0, 0))
    && (1 <= month <= 12 && 1 <= day && 0 <= hour < 24 && 0 <= minute < 60 ==> f.year >= year)
  }

  lemma FieldsAreMadeOf(u: int, year: int, month: int, day: int, hour: int, minute: int)
    requires u == MakeDate(MakeDay(year, month - 1, day), MakeTime(hour, minute, 0, 0))
    ensures MadeOf(FieldsOf(u), year, month, day, hour, minute)
  {
    if ValidLocal(year, month, day, hour, minute) {
      var g := Fields(year, month, day, hour, minute, 0, 0);
      TimeOfLocal(u, g);
      FieldsOfTime(g, u);
    }
    if 1 <= month <= 12 && 1 <= day && 0 <= hour < 24 && 0 <= minute < 60 { NotBefore(u, year, month, day, hour, minute); }
  }

  /** The fields of the Tashkent wall clock at the instant of a slot: all that the round trip depends on. */
  lemma SlotFields(dateStr: string, slot: string) returns (f: Fields)
    requires IsDate(dateStr) && IsSlot(slot)
    ensures MadeOf(f, FullYear(YearIn(dateStr)), MonthIn(dateStr), DayIn(dateStr), HourIn(slot), MinuteIn(slot))
    ensures Shows(UtcIsoToSlot(SlotToUtcIso(dateStr, slot)), f)
  {
    var t := SlotInstant(dateStr, slot);
    InstantIsRepresentable(dateStr, slot);
    LocalSlotOf(t);
    f := FieldsOf(Ahead(t));
    FieldsAreMadeOf(Ahead(t), FullYear(YearIn(dateStr)), MonthIn(dateStr), DayIn(dateStr), HourIn(slot), MinuteIn(slot));
  }

  /**
   * A date and slot come back from UTC as they were exactly when they name a real minute of a real day of the
   * years 100 to 9999. Day, month, leap-year and year boundaries are all crossed on the way.
   */
  lemma SlotRoundTrip(dateStr: string, slot: string)
    requires IsDate(dateStr) && IsSlot(slot)
    ensures UtcIsoToSlot(SlotToUtcIso(dateStr, slot)) == Some(LocalSlot(dateStr, slot))
            <==> && YearIn(dateStr) >= 100
                 && ValidLocal(YearIn(dateStr), MonthIn(dateStr), DayIn(dateStr), HourIn(slot), MinuteIn(slot))
  {
    var f := SlotFields(dateStr, slot);
    DateWrites(dateStr);
    SlotWrites(slot);
    if UtcIsoToSlot(SlotToUtcIso(dateStr, slot)) == Some(LocalSlot(dateStr, slot)) {
      DateReads(f.year, f.month, f.day);
      SlotReads(f.hour, f.minute);
    }
  }

  /** A two-digit year comes back as a year of the twentieth century. */
  lemma TwoDigitYearsMove(dateStr: string, slot: string)
    requires IsDate(dateStr) && IsSlot(slot) && YearIn(dateStr) < 100
    requires ValidLocal(1900 + YearIn(dateStr), MonthIn(dateStr), DayIn(dateStr), HourIn(slot), MinuteIn(slot))
    ensures UtcIsoToSlot(SlotToUtcIso(dateStr, slot))
            == Some(LocalSlot(DateString(1900 + YearIn(dateStr), MonthIn(dateStr), DayIn(dateStr)), slot))
  {
    var f := SlotFields(dateStr, slot);
    SlotWrites(slot);
  }

  /** The other way round: an instant comes back as the minute it lies in. */
  lemma InstantRoundTrip(t: int)
    requires Representable(t) && Representable(Ahead(t)) && 100 <= FieldsOf(Ahead(t)).year < 10_000
    ensures var r := UtcIsoToSlot(ToIso(t));
            && r.Some? && IsDate(r.value.dateStr) && IsSlot(r.value.slot)
            && SlotInstant(r.value.dateStr, r.value.slot) == t - t % 60_000
  {
    var f := FieldsOf(Ahead(t));
    LocalSlotOf(t);
    TimeOfFields(Ahead(t));
    SlotOfFields(t, f);
  }

  lemma InstantOf(date: string, slot: string, day: int)
    requires IsDate(date) && IsSlot(slot) && YearIn(date) >= 100
    requires day == MakeDay(YearIn(date), MonthIn(date) - 1, DayIn(date))
    ensures SlotInstant(date, slot) == day * 86_400_000 + (HourIn(slot) - 5) * 3_600_000 + MinuteIn(slot) * 60_000
  {
  }

  lemma SlotOfFields(t: int, f: Fields)
    requires ValidFields(f) && 100 <= f.year < 10_000 && TimeOf(f) == Ahead(t)
    ensures var date, slot := DateString(f.year, f.month, f.day), SlotString(f.hour, f.minute);
            IsDate(date) && IsSlot(slot) && SlotInstant(date, slot) == t - t % 60_000
  {
    var date, slot, d := DateString(f.year, f.month, f.day), SlotString(f.hour, f.minute), MakeDay(f.year, f.month - 1, f.day);
    DateReads(f.year, f.month, f.day);
    SlotReads(f.hour, f.minute);
    InstantOf(date, slot, d);
    MinuteOf(t, d, f.hour, f.minute, f.second * 1_000 + f.ms);
  }

  lemma MinuteOf(t: int, d: int, hour: int, minute: int, rest: int)
    requires 0 <= rest < 60_000 && t + 18_000_000 == d * 86_400_000 + hour * 3_600_000 + minute * 60_000 + rest
    ensures d * 86_400_000 + (hour - 5) * 3_600_000 + minute * 60_000 == t - t % 60_000
  {
    var m := d * 1_440 + hour * 60 + minute - 300;
    assert t == 60_000 * m + rest;
  }

  // ---- Five hours -----------------------------------------------------------------

  lemma InstantOfLocal(dateStr: string, slot: string, local: Fields)
    requires IsDate(dateStr) && IsSlot(slot) && YearIn(dateStr) >= 100
    requires local == Fields(YearIn(dateStr), MonthIn(dateStr), DayIn(dateStr), HourIn(slot), MinuteIn(slot), 0, 0)
    ensures SlotInstant(dateStr, slot) == TimeOf(local) - 18_000_000
  {
    InstantOf(dateStr, slot, MakeDay(local.year, local.month - 1, local.day));
  }

  /** The local fields of a slot. */
  predicate Names(dateStr: string, slot: string, local: Fields) {
    && IsDate(dateStr) && IsSlot(slot) && ValidFields(local)
    && local == Fields(YearIn(dateStr), MonthIn(dateStr), DayIn(dateStr), HourIn(slot), MinuteIn(slot), 0, 0)
  }

  lemma EarlierHour(f: Fields, hours: int)
    ensures TimeOf(f.(hour := f.hour + hours)) == TimeOf(f) + hours * 3_600_000
  {
  }

  /**
   * The instant of a slot is five hours earlier in UTC: the same day from 05:00 on, and before that the day before.
   */
  lemma SlotIsFiveHoursAhead(dateStr: string, slot: string, local: Fields)
    requires Names(dateStr, slot, local) && local.year >= 100
    ensures var utc := FieldsOf(SlotInstant(dateStr, slot));
            if local.hour >= 5 then utc == local.(hour := local.hour - 5) else NextDay(utc) == local.(hour := local.hour + 19)
  {
    var t := SlotInstant(dateStr, slot);
    InstantOfLocal(dateStr, slot, local);
    if local.hour >= 5 {
      EarlierHour(local, -5);
      FieldsOfTime(local.(hour := local.hour - 5), t);
    } else {
      EarlierHour(local, 19);
      FieldsOfTime(local.(hour := local.hour + 19), t + 86_400_000);
      DaysFollowDays(local, t);
    }
  }

  lemma IsoText(f: Fields)
    requires ValidFields(f) && 0 <= f.year < 10_000 && f.second == 0 && f.ms == 0
    ensures IsoString(f) == DateString(f.year, f.month, f.day) + "T" + SlotString(f.hour, f.minute) + ":00.000Z"
  {
  }

  /** An instant without seconds, as text. */
  predicate IsUtcText(iso: string, dateStr: string, hour: int, minute: int)
    requires 0 <= hour < 24 && 0 <= minute < 60
  {
    iso == dateStr + "T" + SlotString(hour, minute) + ":00.000Z"
  }

  lemma IsoOfSlot(dateStr: string, slot: string, t: int)
    requires IsDate(dateStr) && IsSlot(slot) && t == SlotInstant(dateStr, slot)
    ensures Representable(t) && SlotToUtcIso(dateStr, slot) == ToIso(t)
  {
    InstantIsRepresentable(dateStr, slot);
  }

  lemma DateOfNames(dateStr: string, slot: string, local: Fields)
    requires Names(dateStr, slot, local)
    ensures 0 <= local.year < 10_000 && DateString(local.year, local.month, local.day) == dateStr
  {
    DateWrites(dateStr);
  }

  lemma UtcOfSlot(dateStr: string, slot: string, local: Fields, t: int, utc: Fields)
    requires Names(dateStr, slot, local) && local.year >= 100 && local.hour >= 5
    requires t == SlotInstant(dateStr, slot) && utc == local.(hour := local.hour - 5)
    ensures FieldsOf(t) == utc && ValidFields(utc) && 1 <= utc.month <= 12 && 1 <= utc.day <= 31
  {
    MonthsAreLong(local.year, local.month);
    SlotIsFiveHoursAhead(dateStr, slot, local);
  }

  lemma TextOf(iso: string, t: int, dateStr: string, utc: Fields)
    requires ValidFields(utc) && 0 <= utc.year < 10_000 && utc.second == 0 && utc.ms == 0
    requires 1 <= utc.month <= 12 && 1 <= utc.day <= 31 && Representable(t) && FieldsOf(t) == utc
    requires iso == ToIso(t) && DateString(utc.year, utc.month, utc.day) == dateStr
    ensures IsUtcText(iso, dateStr, utc.hour, utc.minute)
  {
    UtcText(t, utc);
  }

  /** What a slot from 05:00 on looks like in UTC, written out: its date, the hour less five, no seconds. */
  lemma SlotTextInUtc(dateStr: string, slot: string, local: Fields, iso: string, t: int, utc: Fields)
    requires Names(dateStr, slot, local) && local.year >= 100 && local.hour >= 5
    requires iso == SlotToUtcIso(dateStr, slot) && t == SlotInstant(dateStr, slot) && utc == local.(hour := local.hour - 5)
    ensures IsUtcText(iso, dateStr, utc.hour, utc.minute)
  {
    assert FieldsOf(t) == utc && ValidFields(utc) && 1 <= utc.month <= 12 && 1 <= utc.day <= 31 by {
      UtcOfSlot(dateStr, slot, local, t, utc);
    }
    assert 0 <= utc.year < 10_000 && DateString(utc.year, utc.month, utc.day) == dateStr by { DateOfNames(dateStr, slot, local); }
    assert Representable(t) && iso == ToIso(t) by { IsoOfSlot(dateStr, slot, t); }
    TextOf(iso, t, dateStr, utc);
  }

  lemma UtcText(t: int, f: Fields)
    requires ValidFields(f) && 0 <= f.year < 10_000 && f.second == 0 && f.ms == 0
    requires 1 <= f.month <= 12 && 1 <= f.day <= 31 && Representable(t) && FieldsOf(t) == f
    ensures IsUtcText(ToIso(t), DateString(f.year, f.month, f.day), f.hour, f.minute)
  {
    IsoText(f);
  }

  predicate OnOffer(r: Option<LocalSlot>) {
    r.Some? && r.value.slot in {"09:00", "11:00", "14:00", "16:00"}
  }

  /** An order may be scheduled at an instant only if its local slot is one of the four on offer, and conversely. */
  lemma BookableSlots(t: int)
    requires Representable(t) && Representable(Ahead(t)) && 0 <= FieldsOf(Ahead(t)).year < 10_000
    ensures OnOffer(UtcIsoToSlot(ToIso(t))) <==> BookableMinute(TashkentMinute(t))
  {
    LocalSlotOf(t);
    MinuteOfDay(t);
    SlotShown(UtcIsoToSlot(ToIso(t)), FieldsOf(Ahead(t)), TashkentMinute(t));
  }

  lemma SchedulableMeans(t: int, now: int, bookable: bool)
    requires bookable == BookableMinute(TashkentMinute(t))
    ensures Schedulable(t, now) <==> 0 < t - now <= 14 * 24 * 60 * 60 * 1_000 && bookable
  {
  }

  /** An order can be scheduled for the next fourteen days, at the four local slots. */
  lemma SchedulableOnOffer(t: int, now: int)
    requires Representable(t) && Representable(Ahead(t)) && 0 <= FieldsOf(Ahead(t)).year < 10_000
    ensures Schedulable(t, now) <==> 0 < t - now <= 14 * 24 * 60 * 60 * 1_000 && OnOffer(UtcIsoToSlot(ToIso(t)))
  {
    BookableSlots(t);
    SchedulableMeans(t, now, OnOffer(UtcIsoToSlot(ToIso(t))));
  }

  lemma SlotShown(r: Option<LocalSlot>, f: Fields, minute: int)
    requires ValidFields(f) && 0 <= f.year < 10_000 && Shows(r, f) && minute == 60 * f.hour + f.minute
    ensures OnOffer(r) <==> BookableMinute(minute)
  {
    SlotOnOffer(f.hour, f.minute);
  }

  lemma MinuteOfDay(t: int)
    ensures TashkentMinute(t) == 60 * FieldsOf(Ahead(t)).hour + FieldsOf(Ahead(t)).minute
  {
    HoursAndMinutes(Ahead(t));
  }

  lemma HoursAndMinutes(u: int)
    ensures (u / 60_000) % 1_440 == 60 * ((u / 3_600_000) % 24) + (u / 60_000) % 60
  {
    NestedUnits(u);
    var m := u / 60_000;
    assert u / 3_600_000 == m / 60;
    HourOfMinute(m);
  }

  lemma HourOfMinute(m: int)
    ensures m % 1_440 == 60 * (m / 60 % 24) + m % 60
  {
  }

  lemma SlotOnOffer(hour: int, minute: int)
    requires 0 <= hour < 24 && 0 <= minute < 60
    ensures SlotString(hour, minute) in {"09:00", "11:00", "14:00", "16:00"} <==> BookableMinute(60 * hour + minute)
  {
    var s := SlotString(hour, minute);
    SlotReads(hour, minute);
    assert s == "09:00" <==> hour == 9 && minute == 0;
    assert s == "11:00" <==> hour == 11 && minute == 0;
    assert s == "14:00" <==> hour == 14 && minute == 0;
    assert s == "16:00" <==> hour == 16 && minute == 0;
  }
}
