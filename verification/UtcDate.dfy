/**
  UTC dates: the strict date-time parser and day windows of
  apps/api/src/modules/usage/usage.date.ts and the day's time to live of
  apps/api/src/modules/redis/redis.quota.ts, over the time values of section 21.4.1 of ECMA-262.
 */
module UtcDate {
  import opened Utf16
  import opened UtcDay

  // ---------------------------------------------------------------- time values

  const MAX_TIME := 8_640_000_000_000_000

  /** TimeClip: absent is NaN. */
  function TimeClip(t: int): Option<int> {
    if -MAX_TIME <= t <= MAX_TIME then Some(t) else None
  }

  predicate IsLeap(y: int) {
    y % 4 == 0 && (y % 100 != 0 || y % 400 == 0)
  }

  /** Days from the epoch to the start of a year. */
  function DayFromYear(y: int): int {
    365 * (y - 1970) + (y - 1969) / 4 - (y - 1901) / 100 + (y - 1601) / 400
  }

  lemma YearLength(y: int)
    ensures DayFromYear(y + 1) == DayFromYear(y) + if IsLeap(y) then 366 else 365
  {
    StepBy4(y);
    StepBy100(y);
    StepBy400(y);
    LeapCount(y, y % 4 == 0, y % 100 == 0, y % 400 == 0);
  }

  lemma StepBy4(y: int)
    ensures (y - 1968) / 4 - (y - 1969) / 4 == if y % 4 == 0 then 1 else 0
  {
  }

  lemma StepBy100(y: int)
    ensures (y - 1900) / 100 - (y - 1901) / 100 == if y % 100 == 0 then 1 else 0
    ensures y % 100 == 0 ==> y % 4 == 0
  {
  }

  lemma StepBy400(y: int)
    ensures (y - 1600) / 400 - (y - 1601) / 400 == if y % 400 == 0 then 1 else 0
    ensures y % 400 == 0 ==> y % 100 == 0
  {
  }

  lemma LeapCount(y: int, by4: bool, by100: bool, by400: bool)
    requires by4 == (y % 4 == 0) && by100 == (y % 100 == 0) && by400 == (y % 400 == 0) && (by400 ==> by100) &&
      (by100 ==> by4)
    ensures (if by4 then 1 else 0) - (if by100 then 1 else 0) + (if by400 then 1 else 0) == if IsLeap(y) then 1 else 0
  {
  }

  function YearUp(d: int, y: int): (r: int)
    requires DayFromYear(y) <= d
    ensures DayFromYear(r) <= d < DayFromYear(r + 1)
    decreases d - DayFromYear(y)
  {
    YearLength(y);
    if DayFromYear(y + 1) <= d then YearUp(d, y + 1) else y
  }

  function YearDown(d: int, y: int): (r: int)
    requires d < DayFromYear(y + 1)
    ensures DayFromYear(r) <= d < DayFromYear(r + 1)
    decreases DayFromYear(y + 1) - d
  {
    YearLength(y);
    if d < DayFromYear(y) then YearDown(d, y - 1) else y
  }

  /** YearFromTime: the year a day lies in. */
  function YearOf(d: int): (r: int)
    ensures DayFromYear(r) <= d < DayFromYear(r + 1)
  {
    if d >= 0 then YearUp(d, 1970) else YearDown(d, 1969)
  }

  lemma {:induction false} YearsGrow(a: int, b: int)
    requires a <= b
    ensures DayFromYear(a) + 365 * (b - a) <= DayFromYear(b)
    decreases b - a
  {
    if a < b {
      YearsGrow(a, b - 1);
      YearLength(b - 1);
    }
  }

  lemma YearsDiffer(d: int, y: int, z: int)
    requires DayFromYear(y) <= d < DayFromYear(y + 1) && DayFromYear(z) <= d < DayFromYear(z + 1)
    ensures z <= y
  {
    if y < z {
      YearsGrow(y + 1, z);
    }
  }

  lemma YearIsUnique(d: int, y: int)
    requires DayFromYear(y) <= d < DayFromYear(y + 1)
    ensures YearOf(d) == y
  {
    var z := YearOf(d);
    YearsDiffer(d, y, z);
    YearsDiffer(d, z, y);
  }

  /** Days of a year before month m, counted from 0. */
  function MonthStart(m: int, leap: bool): int
    requires 0 <= m < 12
  {
    (match m
     case 0 => 0 case 1 => 31 case 2 => 59 case 3 => 90 case 4 => 120 case 5 => 151
     case 6 => 181 case 7 => 212 case 8 => 243 case 9 => 273 case 10 => 304 case _ => 334)
    + if leap && m >= 2 then 1 else 0
  }

  function DaysInMonth(m: int, leap: bool): int
    requires 0 <= m < 12
  {
    if m == 1 then (if leap then 29 else 28) else if m == 3 || m == 5 || m == 8 || m == 10 then 30 else 31
  }

  /** MonthFromTime, from the day of the year. */
  function MonthOf(n: int, leap: bool): (m: int)
    ensures 0 <= m < 12
  {
    if n < MonthStart(1, leap) then 0
    else if n < MonthStart(2, leap) then 1
    else if n < MonthStart(3, leap) then 2
    else if n < MonthStart(4, leap) then 3
    else if n < MonthStart(5, leap) then 4
    else if n < MonthStart(6, leap) then 5
    else if n < MonthStart(7, leap) then 6
    else if n < MonthStart(8, leap) then 7
    else if n < MonthStart(9, leap) then 8
    else if n < MonthStart(10, leap) then 9
    else if n < MonthStart(11, leap) then 10
    else 11
  }

  lemma MonthsTileYear(n: int, leap: bool)
    requires 0 <= n < if leap then 366 else 365
    ensures var m := MonthOf(n, leap);
      MonthStart(m, leap) <= n < MonthStart(m, leap) + DaysInMonth(m, leap)
  {
  }

  lemma MonthIsUnique(n: int, m: int, leap: bool)
    requires 0 <= m < 12 && MonthStart(m, leap) <= n < MonthStart(m, leap) + DaysInMonth(m, leap)
    ensures MonthOf(n, leap) == m && 0 <= n < if leap then 366 else 365
  {
  }

  /** MakeDay: months and days beyond their range carry into the following ones. */
  function MakeDay(year: int, month: int, date: int): int {
    DayFromYear(year + month / 12) + MonthStart(month % 12, IsLeap(year + month / 12)) + date - 1
  }

  function MakeTime(hour: int, minute: int, second: int, ms: int): int {
    hour * 3_600_000 + minute * 60_000 + second * 1000 + ms
  }

  datatype Date = Date(year: int, month: int, date: int)

  /** The calendar date of a day; months count from 0. */
  function DateOf(d: int): Date {
    var year := YearOf(d);
    var n := d - DayFromYear(year);
    var month := MonthOf(n, IsLeap(year));
    Date(year, month, n - MonthStart(month, IsLeap(year)) + 1)
  }

  predicate IsDate(dt: Date) {
    0 <= dt.month < 12 && 1 <= dt.date <= DaysInMonth(dt.month, IsLeap(dt.year))
  }

  lemma MakeDayInRange(dt: Date)
    requires IsDate(dt)
    ensures MakeDay(dt.year, dt.month, dt.date)
      == DayFromYear(dt.year) + MonthStart(dt.month, IsLeap(dt.year)) + dt.date - 1
  {
    assert dt.month / 12 == 0 && dt.month % 12 == dt.month;
  }

  lemma DateFromParts(d: int, year: int, start: int, n: int, m: int)
    requires YearOf(d) == year && start == DayFromYear(year) && d == start + n && 0 <= m < 12 &&
      MonthOf(n, IsLeap(year)) == m
    ensures DateOf(d) == Date(year, m, n - MonthStart(m, IsLeap(year)) + 1)
  {
  }

  lemma DayInItsYear(year: int, start: int, n: int)
    requires start == DayFromYear(year) && 0 <= n < if IsLeap(year) then 366 else 365
    ensures YearOf(start + n) == year
  {
    YearLength(year);
    YearIsUnique(start + n, year);
  }

  lemma DateRoundTrip(dt: Date)
    requires IsDate(dt)
    ensures DateOf(MakeDay(dt.year, dt.month, dt.date)) == dt
  {
    var leap := IsLeap(dt.year);
    MakeDayInRange(dt);
    MonthIsUnique(MonthStart(dt.month, leap) + dt.date - 1, dt.month, leap);
    DateAt(MakeDay(dt.year, dt.month, dt.date), DayFromYear(dt.year), dt);
  }

  lemma DateAt(d: int, start: int, dt: Date)
    requires IsDate(dt) && start == DayFromYear(dt.year)
    requires d == start + MonthStart(dt.month, IsLeap(dt.year)) + dt.date - 1
    requires MonthOf(d - start, IsLeap(dt.year)) == dt.month && 0 <= d - start < if IsLeap(dt.year) then 366 else 365
    ensures DateOf(d) == dt
  {
    DayInItsYear(dt.year, start, d - start);
    DateFromParts(d, dt.year, start, d - start, dt.month);
  }

  lemma DayRoundTrip(d: int)
    ensures IsDate(DateOf(d)) && MakeDay(DateOf(d).year, DateOf(d).month, DateOf(d).date) == d
  {
    var dt := DateOf(d);
    DayOfItsYear(d, dt.year, DayFromYear(dt.year));
    DateHasMonth(d, dt.year, d - DayFromYear(dt.year), IsLeap(dt.year));
    MakeDayInRange(dt);
  }

  lemma DayOfItsYear(d: int, year: int, start: int)
    requires YearOf(d) == year && start == DayFromYear(year)
    ensures 0 <= d - start < if IsLeap(year) then 366 else 365
  {
    YearLength(year);
  }

  lemma DateHasMonth(d: int, year: int, n: int, leap: bool)
    requires YearOf(d) == year && leap == IsLeap(year) && n == d - DayFromYear(year) && 0 <= n < if leap then 366
      else 365
    ensures var dt := DateOf(d); IsDate(dt) && dt.year == year && MonthStart(dt.month, leap) + dt.date - 1 == n
  {
    MonthsTileYear(n, leap);
  }

  /** The calendar fields of a time value. */
  datatype Fields = Fields(day: Date, hour: int, minute: int, second: int, ms: int)

  /** The getUTC methods. */
  function FieldsOf(t: int): Fields {
    Fields(DateOf(DayOf(t)), t / 3_600_000 % 24, t / 60_000 % 60, t / 1000 % 60, t % 1000)
  }

  /** setUTCFullYear and setUTCHours on the epoch; no year is re-based here. */
  function TimeOf(f: Fields): int {
    TimeAt(MakeDay(f.day.year, f.day.month, f.day.date), f)
  }

  /** MakeDate. */
  function TimeAt(day: int, f: Fields): int {
    DayStart(day) + MakeTime(f.hour, f.minute, f.second, f.ms)
  }

  /** A proleptic Gregorian date and a time of day. */
  predicate IsDateTime(f: Fields) {
    && IsDate(f.day) && 0 <= f.hour < 24 && 0 <= f.minute < 60 && 0 <= f.second < 60 && 0 <= f.ms < 1000
  }

  /** A whole number of days and a time of day, in its units. */
  lemma TimeOfDay(t: int, day: int, hour: int, minute: int, second: int, ms: int)
    requires 0 <= hour < 24 && 0 <= minute < 60 && 0 <= second < 60 && 0 <= ms < 1000
    requires t == day * 86_400_000 + MakeTime(hour, minute, second, ms)
    ensures DayOf(t) == day && t / 3_600_000 % 24 == hour && t / 60_000 % 60 == minute && t / 1000 % 60 == second &&
      t % 1000 == ms
  {
    var seconds := (day * 24 + hour) * 3600 + minute * 60 + second;
    assert t == seconds * 1000 + ms;
    assert t / 1000 == seconds;
    var minutes := (day * 24 + hour) * 60 + minute;
    assert t == minutes * 60_000 + (second * 1000 + ms);
    assert t / 60_000 == minutes;
    var hours := day * 24 + hour;
    assert t == hours * 3_600_000 + (minute * 60_000 + second * 1000 + ms);
    assert t / 3_600_000 == hours;
  }

  lemma DayParts(t: int)
    ensures t == DayOf(t) * 86_400_000 + MakeTime(t / 3_600_000 % 24, t / 60_000 % 60, t / 1000 % 60, t % 1000)
    ensures 0 <= t / 3_600_000 % 24 < 24 && 0 <= t / 60_000 % 60 < 60 && 0 <= t / 1000 % 60 < 60 && 0 <= t % 1000 < 1000
  {
    var (s, m, h) := (t / 1000, t / 60_000, t / 3_600_000);
    assert m == s / 60 && h == m / 60 && DayOf(t) == h / 24;
  }

  lemma FieldsOfParts(f: Fields, day: int)
    requires IsDateTime(f) && DateOf(day) == f.day
    ensures FieldsOf(TimeAt(day, f)) == f
  {
    TimeOfDay(TimeAt(day, f), day, f.hour, f.minute, f.second, f.ms);
  }

  /** Valid fields come back from their time value. */
  lemma FieldsRoundTrip(f: Fields)
    requires IsDateTime(f)
    ensures FieldsOf(TimeOf(f)) == f
  {
    DateRoundTrip(f.day);
    FieldsOfParts(f, MakeDay(f.day.year, f.day.month, f.day.date));
  }

  /** Every time value has valid fields, and they denote it. */
  lemma TimeRoundTrip(t: int)
    ensures IsDateTime(FieldsOf(t)) && TimeOf(FieldsOf(t)) == t
  {
    DayRoundTrip(DayOf(t));
    DayParts(t);
  }

  // ---------------------------------------------------------------- the strict parser

  function Digit(u: CodeUnit): int {
    u as int - 48
  }

  function Number2(t: Text, i: nat): int
    requires i + 2 <= |t|
  {
    Digit(t[i]) * 10 + Digit(t[i + 1])
  }

  function Number3(t: Text, i: nat): int
    requires i + 3 <= |t|
  {
    Digit(t[i]) * 100 + Number2(t, i + 1)
  }

  function Number4(t: Text, i: nat): int
    requires i + 4 <= |t|
  {
    Number2(t, i) * 100 + Number2(t, i + 2)
  }

  predicate DigitsAt(t: Text, i: nat, j: nat)
    requires j <= |t|
  {
    forall k :: i <= k < j ==> IsDigit(t[k])
  }

  /** `YYYY-MM-DDTHH:MM:SS` */
  predicate IsSecondsShape(t: Text) {
    && |t| >= 19 && DigitsAt(t, 0, 4) && t[4] == 45 && DigitsAt(t, 5, 7) && t[7] == 45 && DigitsAt(t, 8, 10) &&
      t[10] == 84
    && DigitsAt(t, 11, 13) && t[13] == 58 && DigitsAt(t, 14, 16) && t[16] == 58 && DigitsAt(t, 17, 19)
  }

  /** STRICT_UTC_DATE_TIME_PATTERN. */
  predicate IsShape(t: Text) {
    IsSecondsShape(t) &&
      ((|t| == 20 && t[19] == 90) || (|t| == 24 && t[19] == 46 && DigitsAt(t, 20, 23) && t[23] == 90))
  }

  /** The numbers the pattern captures, the month counted from 0. */
  function Captured(t: Text): Fields
    requires IsShape(t)
  {
    Fields(Date(Number4(t, 0), Number2(t, 5) - 1, Number2(t, 8)), Number2(t, 11), Number2(t, 14), Number2(t, 17),
           if |t| == 24 then Number3(t, 20) else 0)
  }

  /** parseStrictUtcDateTime: set the captured fields, let them overflow, and compare what comes out. */
  function ParseStrict(t: Text): Option<int> {
    if !IsShape(t) then None
    else
      match TimeClip(TimeOf(Captured(t)))
      case None => None
      case Some(time) => if FieldsOf(time) == Captured(t) then Some(time) else None
  }

  predicate FourDigitYear(y: int) {
    0 <= y <= 9999
  }

  lemma FourDigitYearsAreFinite(dt: Date)
    requires IsDate(dt) && FourDigitYear(dt.year)
    ensures -719_528 <= MakeDay(dt.year, dt.month, dt.date) < 2_932_897
  {
    CalendarEnds();
    YearsGrow(0, dt.year);
    YearsGrow(dt.year + 1, 10_000);
    MakeDayInRange(dt);
    DateInItsYear(dt, IsLeap(dt.year), DayFromYear(dt.year));
  }

  lemma CalendarEnds()
    ensures DayFromYear(0) == -719_528 && DayFromYear(10_000) == 2_932_897
  {
  }

  lemma DateInItsYear(dt: Date, leap: bool, start: int)
    requires IsDate(dt) && leap == IsLeap(dt.year) && start == DayFromYear(dt.year)
    ensures start <= start + MonthStart(dt.month, leap) + dt.date - 1 < DayFromYear(dt.year + 1)
  {
    YearLength(dt.year);
    MonthIsUnique(MonthStart(dt.month, leap) + dt.date - 1, dt.month, leap);
  }

  lemma TimeInItsDay(day: int, f: Fields)
    requires IsDateTime(f)
    ensures day * 86_400_000 <= TimeAt(day, f) < (day + 1) * 86_400_000
  {
  }

  lemma CapturedYear(t: Text)
    requires IsShape(t)
    ensures FourDigitYear(Captured(t).day.year)
  {
    ShapeDigits(t, 0);
    ShapeDigits(t, 2);
  }

  /** The overflow-and-compare check accepts exactly the date-times of the proleptic Gregorian calendar. */
  lemma AcceptsExactlyDateTimes(t: Text)
    ensures ParseStrict(t).Some? <==> IsShape(t) && IsDateTime(Captured(t))
    ensures ParseStrict(t).Some? ==>
      FieldsOf(ParseStrict(t).value) == Captured(t) && ParseStrict(t).value == TimeOf(Captured(t))
  {
    if IsShape(t) {
      var f := Captured(t);
      TimeRoundTrip(TimeOf(f));
      if IsDateTime(f) {
        CapturedYear(t);
        FieldsRoundTrip(f);
        FourDigitYearsAreFinite(f.day);
        TimeInItsDay(MakeDay(f.day.year, f.day.month, f.day.date), f);
      }
    }
  }

  /** Date.prototype.setUTCFullYear; an invalid date counts as the epoch. */
  function SetUtcFullYear(time: Option<int>, year: int, month: int, date: int): Option<int> {
    TimeClip(DayStart(MakeDay(year, month, date)) + if time.Some? then time.value % 86_400_000 else 0)
  }

  /** Date.prototype.setUTCHours; an invalid date stays invalid. */
  function SetUtcHours(time: Option<int>, hour: int, minute: int, second: int, ms: int): Option<int> {
    if time.None? then None else TimeClip(DayStart(DayOf(time.value)) + MakeTime(hour, minute, second, ms))
  }

  lemma CapturedRanges(t: Text)
    requires IsShape(t)
    ensures var f := Captured(t);
      && 0 <= f.day.year <= 9999 && -1 <= f.day.month <= 98 && 0 <= f.day.date <= 99
      && 0 <= f.hour <= 99 && 0 <= f.minute <= 99 && 0 <= f.second <= 99 && 0 <= f.ms <= 999
  {
    CapturedYear(t);
    forall i: nat | i == 5 || i == 8 || i == 11 || i == 14 || i == 17 ensures 0 <= Number2(t, i) <= 99 {
      ShapeDigits(t, i);
    }
  }

  lemma CapturedDayIsFinite(year: int, month: int, date: int)
    requires 0 <= year <= 9999 && -1 <= month <= 98 && 0 <= date <= 99
    ensures -4_000_000 <= MakeDay(year, month, date) <= 4_000_000
  {
    var y := year + month / 12;
    YearsGrow(-1, y);
    YearsGrow(y, 10_007);
    assert DayFromYear(-1) >= -720_000 && DayFromYear(10_007) <= 2_940_000;
    assert 0 <= month % 12 < 12;
  }

  lemma SettersMakeTime(f: Fields)
    requires -4_000_000 <= MakeDay(f.day.year, f.day.month, f.day.date) <= 4_000_000
    ensures SetUtcHours(SetUtcFullYear(Some(0), f.day.year, f.day.month, f.day.date), f.hour, f.minute, f.second, f.ms)
      == TimeClip(TimeOf(f))
  {
    StartsDay(MakeDay(f.day.year, f.day.month, f.day.date), f);
  }

  lemma StartsDay(day: int, f: Fields)
    requires -4_000_000 <= day <= 4_000_000
    ensures TimeClip(DayStart(day) + 0 % 86_400_000) == Some(DayStart(day)) && DayOf(DayStart(day)) == day
  {
  }

  /** The parser as the source runs it: a date changed by two setters, then compared field by field. */
  method ParseStrictUtcDateTime(value: Text) returns (parsed: Option<int>)
    ensures parsed == ParseStrict(value)
  {
    if !IsShape(value) {
      return None;
    }
    var captured := Captured(value);
    CapturedRanges(value);
    CapturedDayIsFinite(captured.day.year, captured.day.month, captured.day.date);
    SettersMakeTime(captured);
    var date := Some(0);
    date := SetUtcFullYear(date, captured.day.year, captured.day.month, captured.day.date);
    date := SetUtcHours(date, captured.hour, captured.minute, captured.second, captured.ms);
    if date.None? || FieldsOf(date.value) != captured {
      return None;
    }
    parsed := date;
  }

  // ---------------------------------------------------------------- printing

  function Tens(n: int): CodeUnit
    requires 0 <= n < 100
  {
    (48 + n / 10) as CodeUnit
  }

  function Ones(n: int): CodeUnit
    requires 0 <= n < 100
  {
    (48 + n % 10) as CodeUnit
  }

  predicate Printable(f: Fields) {
    IsDateTime(f) && FourDigitYear(f.day.year)
  }

  /** toISOString, for years 0 to 9999. */
  function IsoOf(f: Fields): (t: Text)
    requires Printable(f)
    ensures |t| == 24
  {
    var (century, year, month, date) := (f.day.year / 100, f.day.year % 100, f.day.month + 1, f.day.date);
    [Tens(century), Ones(century), Tens(year), Ones(year), 45, Tens(month), Ones(month), 45, Tens(date), Ones(date), 84,
     Tens(f.hour), Ones(f.hour), 58, Tens(f.minute), Ones(f.minute), 58, Tens(f.second), Ones(f.second), 46,
     (48 + f.ms / 100) as CodeUnit, Tens(f.ms % 100), Ones(f.ms % 100), 90]
  }

  lemma PrintedNumber(t: Text, i: nat, n: int)
    requires i + 2 <= |t| && 0 <= n < 100 && t[i] == Tens(n) && t[i + 1] == Ones(n)
    ensures Number2(t, i) == n && IsDigit(t[i]) && IsDigit(t[i + 1])
  {
  }

  lemma ReadNumber(t: Text, i: nat)
    requires i + 2 <= |t| && IsDigit(t[i]) && IsDigit(t[i + 1])
    ensures 0 <= Number2(t, i) < 100 && Tens(Number2(t, i)) == t[i] && Ones(Number2(t, i)) == t[i + 1]
  {
  }

  lemma PrintedDigits(f: Fields, i: nat)
    requires Printable(f) && i < 23 && i != 4 && i != 7 && i != 10 && i != 13 && i != 16 && i != 19
    ensures IsDigit(IsoOf(f)[i])
  {
  }

  lemma PrintedShape(f: Fields)
    requires Printable(f)
    ensures IsShape(IsoOf(f))
  {
    var t := IsoOf(f);
    forall i: nat | i < 23 && i != 4 && i != 7 && i != 10 && i != 13 && i != 16 && i != 19 ensures IsDigit(t[i]) {
      PrintedDigits(f, i);
    }
  }

  lemma PrintedDate(f: Fields)
    requires Printable(f)
    ensures var t := IsoOf(f);
      Number4(t, 0) == f.day.year && Number2(t, 5) == f.day.month + 1 && Number2(t, 8) == f.day.date
  {
    var t := IsoOf(f);
    PrintedNumber(t, 0, f.day.year / 100);
    PrintedNumber(t, 2, f.day.year % 100);
    PrintedNumber(t, 5, f.day.month + 1);
    PrintedNumber(t, 8, f.day.date);
  }

  lemma PrintedTime(f: Fields)
    requires Printable(f)
    ensures var t := IsoOf(f);
      && Number2(t, 11) == f.hour && Number2(t, 14) == f.minute && Number2(t, 17) == f.second && Number3(t, 20) == f.ms
  {
    var t := IsoOf(f);
    PrintedNumber(t, 11, f.hour);
    PrintedNumber(t, 14, f.minute);
    PrintedNumber(t, 17, f.second);
    PrintedNumber(t, 21, f.ms % 100);
  }

  lemma PrintedFields(f: Fields)
    requires Printable(f)
    ensures IsShape(IsoOf(f)) && Captured(IsoOf(f)) == f
  {
    PrintedShape(f);
    PrintedDate(f);
    PrintedTime(f);
  }

  /** The parser undoes ISO printing. */
  lemma PrintThenParse(time: int)
    requires FourDigitYear(FieldsOf(time).day.year)
    ensures Printable(FieldsOf(time)) && ParseStrict(IsoOf(FieldsOf(time))) == Some(time)
  {
    TimeRoundTrip(time);
    PrintedFields(FieldsOf(time));
    AcceptsExactlyDateTimes(IsoOf(FieldsOf(time)));
  }

  /** An accepted text with its milliseconds written out. */
  function WithMillis(t: Text): Text
    requires IsShape(t)
  {
    if |t| == 24 then t else t[..19] + [46, 48, 48, 48, 90]
  }

  lemma ShapeDigits(t: Text, i: nat)
    requires IsShape(t) && (i == 0 || i == 2 || i == 5 || i == 8 || i == 11 || i == 14 || i == 17)
    ensures IsDigit(t[i]) && IsDigit(t[i + 1])
  {
  }

  lemma YearDigits(t: Text)
    requires IsShape(t)
    ensures Number4(t, 0) / 100 == Number2(t, 0) && Number4(t, 0) % 100 == Number2(t, 2)
  {
    ShapeDigits(t, 0);
    ShapeDigits(t, 2);
    ReadNumber(t, 0);
    ReadNumber(t, 2);
  }

  lemma MillisDigits(t: Text)
    requires IsShape(t)
    ensures var ms := Captured(t).ms;
      && 0 <= ms < 1000 && (48 + ms / 100) as CodeUnit == WithMillis(t)[20] && Tens(ms % 100) == WithMillis(t)[21] &&
        Ones(ms % 100) == WithMillis(t)[22]
      && WithMillis(t)[19] == 46 && WithMillis(t)[23] == 90
  {
    if |t| == 24 {
      ReadNumber(t, 21);
    }
  }

  lemma YearUnits(t: Text, f: Fields, i: nat)
    requires IsShape(t) && Printable(f) && f == Captured(t) && i < 4
    ensures IsoOf(f)[i] == t[i]
  {
    YearDigits(t);
    ShapeDigits(t, if i < 2 then 0 else 2);
    ReadNumber(t, if i < 2 then 0 else 2);
  }

  lemma FieldUnits(t: Text, f: Fields, start: nat)
    requires IsShape(t) && Printable(f) && f == Captured(t)
    requires start == 5 || start == 8 || start == 11 || start == 14 || start == 17
    ensures IsoOf(f)[start] == t[start] && IsoOf(f)[start + 1] == t[start + 1]
  {
    ShapeDigits(t, start);
    ReadNumber(t, start);
  }

  lemma SecondsDigits(t: Text, f: Fields, i: nat)
    requires IsShape(t) && Printable(f) && f == Captured(t) && i < 19
    ensures IsoOf(f)[i] == t[i]
  {
    if i < 4 {
      YearUnits(t, f, i);
    } else if i != 4 && i != 7 && i != 10 && i != 13 && i != 16 {
      FieldUnits(t, f, if i < 7 then 5 else if i < 10 then 8 else if i < 13 then 11 else if i < 16 then 14 else 17);
    }
  }

  /** Printing an accepted text's time gives the text, with its milliseconds written out. */
  lemma ParseThenPrint(t: Text)
    requires ParseStrict(t).Some?
    ensures Printable(FieldsOf(ParseStrict(t).value)) && IsoOf(FieldsOf(ParseStrict(t).value)) == WithMillis(t)
  {
    AcceptsExactlyDateTimes(t);
    CapturedYear(t);
    PrintsCaptured(t, Captured(t));
  }

  lemma PrintsCaptured(t: Text, f: Fields)
    requires IsShape(t) && Printable(f) && f == Captured(t)
    ensures IsoOf(f) == WithMillis(t)
  {
    MillisDigits(t);
    forall i | 0 <= i < 24 ensures IsoOf(f)[i] == WithMillis(t)[i] {
      if i < 19 {
        SecondsDigits(t, f, i);
      }
    }
  }

  // ---------------------------------------------------------------- day windows

  /** Date.UTC of a calendar date: a year from 0 to 99 means one of the 1900s. */
  function DateUtc(year: int, month: int, date: int): Option<int> {
    TimeClip(DayStart(MakeDay(if 0 <= year <= 99 then 1900 + year else year, month, date)))
  }

  predicate IsTime(t: int) {
    -MAX_TIME <= t <= MAX_TIME
  }

  datatype Window = Window(start: Option<int>, endExclusive: Option<int>)

  /** getUtcDayWindow of a valid date; absent bounds are invalid dates. */
  function DayWindow(now: int): Window
    requires IsTime(now)
  {
    var today := FieldsOf(now).day;
    WindowFrom(DateUtc(today.year, today.month, today.date))
  }

  function WindowFrom(start: Option<int>): Window {
    if start.None? then Window(None, None) else Window(start, TimeClip(start.value + 86_400_000))
  }

  /** The years that Date.UTC reads as other years. */
  predicate Rebased(now: int) {
    0 <= FieldsOf(now).day.year <= 99
  }

  lemma TodayIsDay(now: int)
    ensures var today := FieldsOf(now).day;
      IsDate(today) && MakeDay(today.year, today.month, today.date) == DayOf(now)
      && MakeDay(today.year, today.month, today.date + 1) == DayOf(now) + 1
  {
    var today := FieldsOf(now).day;
    DayRoundTrip(DayOf(now));
    MakeDayAdds(today.year, today.month, today.date, 1);
  }

  /** A re-based year starts centuries later. */
  lemma RebasedIsLater(now: int)
    requires Rebased(now)
    ensures var today := FieldsOf(now).day;
      MakeDay(1900 + today.year, today.month, today.date) >= DayOf(now) + 600_000
  {
    var today := FieldsOf(now).day;
    TodayIsDay(now);
    MakeDayInRange(today);
    YearsGrow(today.year, 1900 + today.year);
    LaterMonthStart(today.month, IsLeap(today.year), IsLeap(1900 + today.year));
    assert today.month / 12 == 0 && today.month % 12 == today.month;
  }

  lemma LaterMonthStart(m: int, a: bool, b: bool)
    requires 0 <= m < 12
    ensures MonthStart(m, b) >= MonthStart(m, a) - 1
  {
  }

  lemma TodayUtc(now: int, date: int, day: int)
    requires !Rebased(now) && 0 <= date - FieldsOf(now).day.date == day - DayOf(now) <= 1
    ensures DateUtc(FieldsOf(now).day.year, FieldsOf(now).day.month, date) == TimeClip(DayStart(day))
  {
    var today := FieldsOf(now).day;
    TodayIsDay(now);
    DateUtcPlain(today.year, today.month, date);
    MakeDayAdds(today.year, today.month, today.date, date - today.date);
  }

  lemma DateUtcPlain(year: int, month: int, date: int)
    requires !(0 <= year <= 99)
    ensures DateUtc(year, month, date) == TimeClip(DayStart(MakeDay(year, month, date)))
  {
  }

  lemma MakeDayAdds(year: int, month: int, date: int, more: int)
    ensures MakeDay(year, month, date + more) == MakeDay(year, month, date) + more
  {
  }

  lemma DayStartIsTime(now: int)
    requires IsTime(now)
    ensures TimeClip(DayStart(DayOf(now))) == Some(DayStart(DayOf(now)))
  {
  }

  lemma StartOfToday(now: int)
    requires IsTime(now) && !Rebased(now)
    ensures DayWindow(now) == Window(Some(DayStart(DayOf(now))), TimeClip(DayStart(DayOf(now)) + 86_400_000))
  {
    TodayUtc(now, FieldsOf(now).day.date, DayOf(now));
    DayStartIsTime(now);
  }

  /** The window is the UTC day of `now` exactly when the year is not re-based. */
  lemma WindowIsTheDayIff(now: int)
    requires IsTime(now)
    ensures DayWindow(now).start == Some(DayStart(DayOf(now))) <==> !Rebased(now)
  {
    if Rebased(now) {
      RebasedIsLater(now);
    } else {
      StartOfToday(now);
    }
  }

  predicate Tiles(a: int, b: int, u: Window, v: Window) {
    && u.start.Some? && v.start.Some? && u.start.value <= a < u.start.value + 86_400_000
    && (u.endExclusive.Some? ==> u.endExclusive.value == u.start.value + 86_400_000)
    && (b < u.start.value + 86_400_000 ==> u == v)
    && (b >= u.start.value + 86_400_000 ==> u.endExclusive.Some? && u.endExclusive.value <= v.start.value)
    && (u.start.value + 86_400_000 <= b < u.start.value + 172_800_000 ==> u.endExclusive == v.start)
  }

  lemma DaysTile(a: int, b: int)
    requires IsTime(a) && IsTime(b) && a <= b
    ensures Tiles(a, b, Window(Some(DayStart(DayOf(a))), TimeClip(DayStart(DayOf(a)) + 86_400_000)),
                        Window(Some(DayStart(DayOf(b))), TimeClip(DayStart(DayOf(b)) + 86_400_000)))
  {
    DayBounds(a);
    DayBounds(b);
  }

  /**
    Outside the re-based years the windows tile the time line: each contains its instant, two are equal
    or disjoint, and consecutive ones touch.
   */
  lemma WindowsTile(a: int, b: int)
    requires IsTime(a) && IsTime(b) && a <= b && !Rebased(a) && !Rebased(b)
    ensures Tiles(a, b, DayWindow(a), DayWindow(b))
  {
    StartOfToday(a);
    StartOfToday(b);
    DaysTile(a, b);
  }

  /** The quota day: the first ten units of the start's ISO form. */
  function DayKey(now: int): Text
    requires IsTime(now) && !Rebased(now) && FourDigitYear(FieldsOf(now).day.year)
  {
    StartOfToday(now);
    DayStartFields(now);
    IsoOf(FieldsOf(DayWindow(now).start.value))[..10]
  }

  lemma DayStartFields(now: int)
    ensures FieldsOf(DayStart(DayOf(now))).day == FieldsOf(now).day && IsDateTime(FieldsOf(DayStart(DayOf(now))))
  {
    TimeRoundTrip(DayStart(DayOf(now)));
    DayBounds(now);
  }

  lemma SamePrintedDate(f: Fields, g: Fields)
    requires Printable(f) && Printable(g) && IsoOf(f)[..10] == IsoOf(g)[..10]
    ensures f.day == g.day
  {
    var (s, t) := (IsoOf(f), IsoOf(g));
    forall i: nat | i < 10 ensures s[i] == t[i] {
      assert s[..10][i] == t[..10][i];
    }
    PrintedFields(f);
    PrintedFields(g);
  }

  /** Two instants have the same quota day exactly when they lie in the same UTC day. */
  lemma DayKeysSeparateDays(a: int, b: int)
    requires IsTime(a) && !Rebased(a) && FourDigitYear(FieldsOf(a).day.year)
    requires IsTime(b) && !Rebased(b) && FourDigitYear(FieldsOf(b).day.year)
    ensures DayKey(a) == DayKey(b) <==> DayOf(a) == DayOf(b)
  {
    StartOfToday(a);
    StartOfToday(b);
    DayStartFields(a);
    DayStartFields(b);
    if DayKey(a) == DayKey(b) {
      SamePrintedDate(FieldsOf(DayStart(DayOf(a))), FieldsOf(DayStart(DayOf(b))));
      TodayIsDay(a);
      TodayIsDay(b);
    }
  }

  // ---------------------------------------------------------------- the day's time to live

  datatype Ttl = Seconds(n: nat) | Rejected | NotANumber

  function TtlUpTo(now: int, next: Option<int>): Ttl {
    match next
    case None => NotANumber
    case Some(at) =>
      var seconds := (at - now + 999) / 1000;
      if seconds < 1 || seconds > 86_400 then Rejected else Seconds(seconds)
  }

  /** getUtcDayTtlSeconds; a comparison with NaN rejects nothing. */
  function DayTtl(now: int): Ttl
    requires IsTime(now)
  {
    TtlOn(now, FieldsOf(now).day)
  }

  function TtlOn(now: int, today: Date): Ttl {
    TtlUpTo(now, DateUtc(today.year, today.month, today.date + 1))
  }

  /**
    The time to live is the whole seconds up to midnight, between 1 and 86 400, except that
    re-based years are rejected and the last representable instant has none.
   */
  lemma TtlIsSecondsToMidnight(now: int)
    requires IsTime(now)
    ensures DayTtl(now) ==
      if Rebased(now) then Rejected else if now == MAX_TIME then NotANumber else Seconds(TtlSeconds(now))
    ensures DayTtl(now).Seconds? ==>
      1 <= DayTtl(now).n <= 86_400 && Midnight(DayOf(now)) <= now + DayTtl(now).n * 1000 < Midnight(DayOf(now)) + 1000
  {
    if Rebased(now) {
      RebasedTtl(now);
    } else {
      TodayUtc(now, FieldsOf(now).day.date + 1, DayOf(now) + 1);
      MidnightTtl(now);
    }
  }

  lemma MidnightTtl(now: int)
    requires IsTime(now)
    ensures TtlUpTo(now, TimeClip(DayStart(DayOf(now) + 1))) == if now == MAX_TIME then NotANumber
      else Seconds(TtlSeconds(now))
    ensures Midnight(DayOf(now)) <= now + TtlSeconds(now) * 1000 < Midnight(DayOf(now)) + 1000
  {
    DayBounds(now);
  }

  lemma RebasedTtl(now: int)
    requires IsTime(now) && Rebased(now)
    ensures DayTtl(now) == Rejected
  {
    var today := FieldsOf(now).day;
    TodayIsDay(now);
    RebasedIsLater(now);
    RebasedIsRepresentable(today);
    RebasedTomorrow(now, today, MakeDay(1900 + today.year, today.month, today.date + 1));
  }

  lemma RebasedTomorrow(now: int, today: Date, day: int)
    requires IsTime(now) && 0 <= today.year <= 99
    requires day == MakeDay(1900 + today.year, today.month, today.date + 1) && DayOf(now) + 600_000 <= day <= 20_000
    ensures TtlOn(now, today) == Rejected
  {
    DateUtcRebased(today.year, today.month, today.date + 1);
    LateTtl(now, day);
  }

  lemma DateUtcRebased(year: int, month: int, date: int)
    requires 0 <= year <= 99
    ensures DateUtc(year, month, date) == TimeClip(DayStart(MakeDay(1900 + year, month, date)))
  {
  }

  lemma LateTtl(now: int, day: int)
    requires IsTime(now) && DayOf(now) + 600_000 <= day <= 20_000
    ensures TtlUpTo(now, TimeClip(DayStart(day))) == Rejected
  {
    DayBounds(now);
  }

  lemma RebasedIsRepresentable(today: Date)
    requires IsDate(today) && 0 <= today.year <= 99
    ensures MakeDay(1900 + today.year, today.month, today.date + 1)
      == MakeDay(1900 + today.year, today.month, today.date) + 1
    ensures MakeDay(1900 + today.year, today.month, today.date + 1) <= 20_000
  {
    MakeDayAdds(1900 + today.year, today.month, today.date, 1);
    TwentiethCentury(today.year, today.month, today.date + 1);
  }

  lemma TwentiethCentury(year: int, month: int, date: int)
    requires 0 <= year <= 99 && 0 <= month < 12 && date <= 32
    ensures MakeDay(1900 + year, month, date) <= 20_000
  {
    YearsGrow(1900 + year, 1999);
    assert DayFromYear(1999) == 10_592;
    assert month / 12 == 0 && month % 12 == month;
  }
}
