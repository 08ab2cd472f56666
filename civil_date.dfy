/**
 * The part of JavaScript's `Date` the billing and gift schedules use, on the
 * proleptic Gregorian calendar with no time zone: a moment is a calendar
 * date plus the milliseconds into that day. Months are numbered 0..11 as
 * `getMonth` numbers them. The setters follow the `MakeDay` rule of
 * ECMA-262: the month is reduced modulo 12 into the year, and a day past
 * the end of the month runs on into the following months.
 */
module CivilDate {

  const MsPerDay: int := 1000 * 60 * 60 * 24

  predicate IsLeap(y: int) { (y % 4 == 0 && y % 100 != 0) || y % 400 == 0 }

  function DaysInMonth(y: int, m: int): (r: int)
    requires 0 <= m < 12
    ensures 28 <= r <= 31
    ensures r == 29 <==> m == 1 && IsLeap(y)
    ensures r == 28 <==> m == 1 && !IsLeap(y)
  {
    if m == 1 then (if IsLeap(y) then 29 else 28)
    else if m == 3 || m == 5 || m == 8 || m == 10 then 30
    else 31
  }

  /** A calendar date: `month` as `getMonth` returns it, `day` as `getDate` does. */
  datatype Date = Date(year: int, month: int, day: int)

  predicate ValidDate(d: Date) {
    0 <= d.month < 12 && 1 <= d.day <= DaysInMonth(d.year, d.month)
  }

  // ---------------------------------------------------------------- day numbers

  /** Leap years strictly before `y` (counting from year 1; the formula extends to all integers). */
  function Leaps(y: int): int {
    (y - 1) / 4 - (y - 1) / 100 + (y - 1) / 400
  }

  lemma LeapsStep(y: int)
    ensures Leaps(y + 1) - Leaps(y) == if IsLeap(y) then 1 else 0
  {
    DivStep4(y);
    DivStep100(y);
    DivStep400(y);
  }

  lemma DivStep4(y: int)
    ensures y / 4 - (y - 1) / 4 == if y % 4 == 0 then 1 else 0
  {
  }

  lemma DivStep100(y: int)
    ensures y / 100 - (y - 1) / 100 == if y % 100 == 0 then 1 else 0
  {
  }

  lemma DivStep400(y: int)
    ensures y / 400 - (y - 1) / 400 == if y % 400 == 0 then 1 else 0
  {
  }

  /** Days of the months of year `y` before month `m`. */
  function DaysBeforeMonth(y: int, m: int): (r: int)
    requires 0 <= m <= 12
    ensures m == 0 ==> r == 0
    ensures m == 12 ==> r == if IsLeap(y) then 366 else 365
  {
    var leap := if IsLeap(y) && m >= 2 then 1 else 0;
    [0, 31, 59, 90, 120, 151, 181, 212, 243, 273, 304, 334, 365][m] + leap
  }

  lemma DaysBeforeMonthStep(y: int, m: int)
    requires 0 <= m < 12
    ensures DaysBeforeMonth(y, m + 1) == DaysBeforeMonth(y, m) + DaysInMonth(y, m)
  {
  }

  /** Days from 1970-01-01 to `d`: the day part of `getTime`. */
  function DayNumber(d: Date): int
    requires 0 <= d.month < 12
  {
    365 * d.year + Leaps(d.year) + DaysBeforeMonth(d.year, d.month) + d.day - 1 - 719527
  }

  lemma EpochIsDayZero()
    ensures DayNumber(Date(1970, 0, 1)) == 0
  {
  }

  // ---------------------------------------------------------------- stepping by days

  function NextDay(d: Date): (r: Date)
    requires ValidDate(d)
    ensures ValidDate(r)
  {
    if d.day < DaysInMonth(d.year, d.month) then Date(d.year, d.month, d.day + 1)
    else if d.month < 11 then Date(d.year, d.month + 1, 1)
    else Date(d.year + 1, 0, 1)
  }

  function PrevDay(d: Date): (r: Date)
    requires ValidDate(d)
    ensures ValidDate(r)
  {
    if d.day > 1 then Date(d.year, d.month, d.day - 1)
    else if d.month > 0 then Date(d.year, d.month - 1, DaysInMonth(d.year, d.month - 1))
    else Date(d.year - 1, 11, 31)
  }

  lemma DayNumberNext(d: Date)
    requires ValidDate(d)
    ensures DayNumber(NextDay(d)) == DayNumber(d) + 1
  {
    if d.day == DaysInMonth(d.year, d.month) {
      DaysBeforeMonthStep(d.year, d.month);
      if d.month == 11 {
        LeapsStep(d.year);
      }
    }
  }

  lemma DayNumberPrev(d: Date)
    requires ValidDate(d)
    ensures DayNumber(PrevDay(d)) == DayNumber(d) - 1
  {
    if d.day == 1 {
      if d.month > 0 {
        DaysBeforeMonthStep(d.year, d.month - 1);
      } else {
        LeapsStep(d.year - 1);
      }
    }
  }

  /** `n` days after `d` (before it when `n` is negative). */
  function AddDays(d: Date, n: int): (r: Date)
    requires ValidDate(d)
    ensures ValidDate(r)
    decreases if n < 0 then -n else n
  {
    if n == 0 then d
    else if n > 0 then AddDays(NextDay(d), n - 1)
    else AddDays(PrevDay(d), n + 1)
  }

  /** Adding `n` days moves the day number by exactly `n`. */
  lemma {:induction false} DayNumberAddDays(d: Date, n: int)
    requires ValidDate(d)
    ensures DayNumber(AddDays(d, n)) == DayNumber(d) + n
    decreases if n < 0 then -n else n
  {
    if n > 0 {
      DayNumberNext(d);
      DayNumberAddDays(NextDay(d), n - 1);
    } else if n < 0 {
      DayNumberPrev(d);
      DayNumberAddDays(PrevDay(d), n + 1);
    }
  }

  /** Within a month, adding days only moves the day of the month. */
  lemma {:induction false} AddDaysWithinMonth(y: int, m: int, s: int, k: nat)
    requires 0 <= m < 12 && 1 <= s && s + k <= DaysInMonth(y, m)
    ensures AddDays(Date(y, m, s), k) == Date(y, m, s + k)
    decreases k
  {
    if k > 0 {
      AddDaysWithinMonth(y, m, s + 1, k - 1);
    }
  }

  /** The month after month `m` of year `y`, as (year, month). */
  function MonthAfter(y: int, m: int): (r: (int, int))
    requires 0 <= m < 12
    ensures 0 <= r.1 < 12
  {
    if m < 11 then (y, m + 1) else (y + 1, 0)
  }

  /** Past the end of the month, adding days runs on into the next month. */
  lemma {:induction false} AddDaysIntoNextMonth(y: int, m: int, s: int, k: nat)
    requires 0 <= m < 12 && 1 <= s <= DaysInMonth(y, m)
    requires DaysInMonth(y, m) < s + k <= DaysInMonth(y, m) + DaysInMonth(MonthAfter(y, m).0, MonthAfter(y, m).1)
    ensures AddDays(Date(y, m, s), k) == Date(MonthAfter(y, m).0, MonthAfter(y, m).1, s + k - DaysInMonth(y, m))
    decreases k
  {
    var next := MonthAfter(y, m);
    if s < DaysInMonth(y, m) {
      AddDaysIntoNextMonth(y, m, s + 1, k - 1);
    } else {
      assert NextDay(Date(y, m, s)) == Date(next.0, next.1, 1);
      AddDaysWithinMonth(next.0, next.1, 1, k - 1);
    }
  }

  // ---------------------------------------------------------------- MakeDay and the setters

  /** `new Date(y, m, d)` (date part): month `m` may be any integer, day `d` any integer. */
  function MakeDate(y: int, m: int, d: int): (r: Date)
    ensures ValidDate(r)
  {
    AddDays(Date(y + m / 12, m % 12, 1), d - 1)
  }

  /** For a real calendar date, `new Date(y, m, d)` is that date. */
  lemma MakeDateOfValid(d: Date)
    requires ValidDate(d)
    ensures MakeDate(d.year, d.month, d.day) == d
  {
    AddDaysWithinMonth(d.year, d.month, 1, d.day - 1);
  }

  /** Day 0 of the following month is the last day of month `m`. */
  lemma MakeDateDayZero(y: int, m: int)
    requires 0 <= m < 12
    ensures MakeDate(y, m + 1, 0) == Date(y, m, DaysInMonth(y, m))
  {
    if m == 11 {
      assert (m + 1) / 12 == 1 && (m + 1) % 12 == 0;
    } else {
      assert (m + 1) / 12 == 0 && (m + 1) % 12 == m + 1;
      assert AddDays(Date(y, m + 1, 1), -1) == PrevDay(Date(y, m + 1, 1));
    }
  }

  /** A point in time: a date and the milliseconds since its midnight. */
  datatype Moment = Moment(date: Date, ms: int)

  predicate ValidMoment(t: Moment) {
    ValidDate(t.date) && 0 <= t.ms < MsPerDay
  }

  /** `getTime()`: milliseconds since 1970-01-01T00:00. */
  function GetTime(t: Moment): int
    requires 0 <= t.date.month < 12
  {
    DayNumber(t.date) * MsPerDay + t.ms
  }

  /** `setHours(0, 0, 0, 0)`. */
  function StartOfDay(t: Moment): (r: Moment)
    ensures r.date == t.date && r.ms == 0
  {
    Moment(t.date, 0)
  }

  /** `setDate(v)`: day `v` of the moment's month, overflowing either way; the time of day is kept. */
  function SetDate(t: Moment, v: int): (r: Moment)
    requires ValidMoment(t)
    ensures ValidMoment(r) && r.ms == t.ms
  {
    Moment(MakeDate(t.date.year, t.date.month, v), t.ms)
  }

  /** `setMonth(v)`: month `v` of the moment's year with the same day of the month, overflowing; the time is kept. */
  function SetMonth(t: Moment, v: int): (r: Moment)
    requires ValidMoment(t)
    ensures ValidMoment(r) && r.ms == t.ms
  {
    Moment(MakeDate(t.date.year, v, t.date.day), t.ms)
  }

  /** `setFullYear(v)`: the same month and day in year `v`, overflowing (29 February to 1 March); the time is kept. */
  function SetFullYear(t: Moment, v: int): (r: Moment)
    requires ValidMoment(t)
    ensures ValidMoment(r) && r.ms == t.ms
  {
    Moment(MakeDate(v, t.date.month, t.date.day), t.ms)
  }

  /** `setDate(getDate() + n)` moves the moment by exactly `n` whole days. */
  lemma AddDaysByDate(t: Moment, n: int)
    requires ValidMoment(t)
    ensures GetTime(SetDate(t, t.date.day + n)) == GetTime(t) + n * MsPerDay
  {
    SetDateDayNumber(t, n);
  }

  /** The same on the calendar: the date moves `n` days on. */
  lemma SetDateDayNumber(t: Moment, n: int)
    requires ValidMoment(t)
    ensures DayNumber(SetDate(t, t.date.day + n).date) == DayNumber(t.date) + n
  {
    var first := Date(t.date.year, t.date.month, 1);
    assert t.date.month / 12 == 0 && t.date.month % 12 == t.date.month;
    DayNumberAddDays(first, t.date.day + n - 1);
  }

  /**
   * `setMonth(getMonth() + n)`: when the day exists in the target month the
   * day is kept; otherwise the date runs on into the month after.
   */
  lemma AddMonthsByMonth(t: Moment, n: int)
    requires ValidMoment(t)
    ensures var target := Date(t.date.year + (t.date.month + n) / 12, (t.date.month + n) % 12, t.date.day);
      var dim := DaysInMonth(target.year, target.month);
      var after := MonthAfter(target.year, target.month);
      && (t.date.day <= dim ==> SetMonth(t, t.date.month + n).date == target)
      && (t.date.day > dim ==> SetMonth(t, t.date.month + n).date == Date(after.0, after.1, t.date.day - dim))
  {
    var y := t.date.year + (t.date.month + n) / 12;
    var m := (t.date.month + n) % 12;
    var dim := DaysInMonth(y, m);
    if t.date.day <= dim {
      AddDaysWithinMonth(y, m, 1, t.date.day - 1);
    } else {
      AddDaysIntoNextMonth(y, m, 1, t.date.day - 1);
    }
  }

  /** `setMonth(getMonth())` changes nothing. */
  lemma SetSameMonth(t: Moment)
    requires ValidMoment(t)
    ensures SetMonth(t, t.date.month) == t
  {
    assert t.date.month / 12 == 0 && t.date.month % 12 == t.date.month;
    MakeDateOfValid(t.date);
  }

  /** The day number of the first of month `m` of year `y`. */
  function MonthStart(y: int, m: int): int
    requires 0 <= m < 12
  {
    DayNumber(Date(y, m, 1))
  }

  lemma MonthStartStep(y: int, m: int)
    requires 0 <= m < 12
    ensures MonthStart(MonthAfter(y, m).0, MonthAfter(y, m).1) == MonthStart(y, m) + DaysInMonth(y, m)
  {
    DaysBeforeMonthStep(y, m);
    if m == 11 {
      LeapsStep(y);
    }
  }

  /** A later month starts after every day of an earlier one. */
  lemma {:induction false} MonthStartLater(y: int, m: int, y2: int, m2: int)
    requires 0 <= m < 12 && 0 <= m2 < 12
    requires y < y2 || (y == y2 && m < m2)
    ensures MonthStart(y2, m2) >= MonthStart(y, m) + DaysInMonth(y, m)
    decreases y2 - y, 12 - m
  {
    MonthStartStep(y, m);
    if m < 11 {
      if y != y2 || m + 1 != m2 {
        MonthStartLater(y, m + 1, y2, m2);
      }
    } else {
      if y + 1 != y2 || m2 != 0 {
        MonthStartLater(y + 1, 0, y2, m2);
      }
    }
  }

  /** Moving forward by at least one month always moves forward in time. */
  lemma AddMonthsLater(t: Moment, n: nat)
    requires ValidMoment(t) && n > 0
    ensures GetTime(SetMonth(t, t.date.month + n)) > GetTime(t)
  {
    var total := t.date.month + n;
    var y := t.date.year + total / 12;
    var m := total % 12;
    var moved := SetMonth(t, total);
    assert moved.date == AddDays(Date(y, m, 1), t.date.day - 1);
    DayNumberAddDays(Date(y, m, 1), t.date.day - 1);
    assert t.date.year < y || (t.date.year == y && t.date.month < m);
    MonthStartLater(t.date.year, t.date.month, y, m);
    DayNumberInMonth(t.date);
    LaterDay(moved, t);
  }

  /** Moving forward by at least one year always moves forward in time. */
  lemma AddYearsLater(t: Moment, n: nat)
    requires ValidMoment(t) && n > 0
    ensures GetTime(SetFullYear(t, t.date.year + n)) > GetTime(t)
  {
    var y := t.date.year + n;
    var moved := SetFullYear(t, y);
    assert t.date.month / 12 == 0 && t.date.month % 12 == t.date.month;
    assert moved.date == AddDays(Date(y, t.date.month, 1), t.date.day - 1);
    DayNumberAddDays(Date(y, t.date.month, 1), t.date.day - 1);
    MonthStartLater(t.date.year, t.date.month, y, t.date.month);
    DayNumberInMonth(t.date);
    LaterDay(moved, t);
  }

  lemma DayNumberInMonth(d: Date)
    requires 0 <= d.month < 12
    ensures DayNumber(d) == MonthStart(d.year, d.month) + d.day - 1
  {
  }

  /** On a later day at the same time of day, `getTime` is larger. */
  lemma LaterDay(a: Moment, b: Moment)
    requires 0 <= a.date.month < 12 && 0 <= b.date.month < 12
    requires DayNumber(a.date) > DayNumber(b.date) && a.ms == b.ms
    ensures GetTime(a) > GetTime(b)
  {
  }
}
