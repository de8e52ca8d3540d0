/**
 * The proleptic Gregorian calendar on integer (year, month, day) triples: the
 * part of JavaScript's `Date` that the calendar widget relies on. Months count
 * from 0 (January) to 11, as `getMonth` does; days of the week count from 0
 * (Sunday) to 6, as `getDay` does. Time zones and times of day are not part of it.
 */
module CivilDate {

  predicate IsLeapYear(y: int) {
    y % 4 == 0 && (y % 100 != 0 || y % 400 == 0)
  }

  function DaysInMonth(y: int, m: int): (n: int)
    requires 0 <= m < 12
    ensures 28 <= n <= 31
  {
    if m == 1 then (if IsLeapYear(y) then 29 else 28)
    else if m == 3 || m == 5 || m == 8 || m == 10 then 30
    else 31
  }

  /** A calendar day; a `Date` stands for a real day when it is `Valid`. */
  datatype Date = Date(year: int, month: int, day: int) {
    predicate Valid() {
      0 <= month < 12 && 1 <= day <= DaysInMonth(year, month)
    }
  }

  /** The day after `d`, rolling over month and year ends. */
  function NextDay(d: Date): (r: Date)
    requires d.Valid()
    ensures r.Valid()
  {
    if d.day < DaysInMonth(d.year, d.month) then Date(d.year, d.month, d.day + 1)
    else if d.month < 11 then Date(d.year, d.month + 1, 1)
    else Date(d.year + 1, 0, 1)
  }

  /** The day before `d`; its next day is `d` again. */
  function PrevDay(d: Date): (r: Date)
    requires d.Valid()
    ensures r.Valid() && NextDay(r) == d
  {
    if d.day > 1 then Date(d.year, d.month, d.day - 1)
    else if d.month > 0 then Date(d.year, d.month - 1, DaysInMonth(d.year, d.month - 1))
    else Date(d.year - 1, 11, 31)
  }

  /** The day `n` days after `d`. */
  function AddDays(d: Date, n: nat): (r: Date)
    requires d.Valid()
    ensures r.Valid()
    decreases n
  {
    if n == 0 then d else NextDay(AddDays(d, n - 1))
  }

  /** The day `n` days before `d`. */
  function SubDays(d: Date, n: nat): (r: Date)
    requires d.Valid()
    ensures r.Valid()
    decreases n
  {
    if n == 0 then d else PrevDay(SubDays(d, n - 1))
  }

  /** Moving forward `a` days and then `b` days is moving forward `a + b` days. */
  lemma {:induction false} AddDaysAdditive(d: Date, a: nat, b: nat)
    requires d.Valid()
    ensures AddDays(AddDays(d, a), b) == AddDays(d, a + b)
  {
    if b > 0 {
      AddDaysAdditive(d, a, b - 1);
    }
  }

  /** Stepping back one day and forward `n` is stepping forward `n - 1`. */
  lemma {:induction false} AddDaysAfterPrev(d: Date, n: nat)
    requires d.Valid() && n >= 1
    ensures AddDays(PrevDay(d), n) == AddDays(d, n - 1)
  {
    if n > 1 {
      AddDaysAfterPrev(d, n - 1);
    }
  }

  /** Going back `n` days and forward `n` days returns to the same day. */
  lemma {:induction false} AddSubDays(d: Date, n: nat)
    requires d.Valid()
    ensures AddDays(SubDays(d, n), n) == d
  {
    if n > 0 {
      AddDaysAfterPrev(SubDays(d, n - 1), n);
      AddSubDays(d, n - 1);
    }
  }

  /** Within one month, moving forward only counts up the day of the month. */
  lemma {:induction false} AddDaysWithinMonth(d: Date, n: nat)
    requires d.Valid() && d.day + n <= DaysInMonth(d.year, d.month)
    ensures AddDays(d, n) == Date(d.year, d.month, d.day + n)
  {
    if n > 0 {
      AddDaysWithinMonth(d, n - 1);
    }
  }

  /** Going back from the 1st of a month stays in the previous month for up to its length. */
  lemma {:induction false} SubDaysIntoPrevMonth(d: Date, n: nat)
    requires d.Valid() && d.day == 1 && 1 <= n
    requires var p := PrevDay(d); n <= DaysInMonth(p.year, p.month)
    ensures var p := PrevDay(d); SubDays(d, n) == Date(p.year, p.month, DaysInMonth(p.year, p.month) - n + 1)
  {
    if n > 1 {
      SubDaysIntoPrevMonth(d, n - 1);
    }
  }

  /** Days from 0001-01-01 to the 1st of January of `y`. */
  function DaysBeforeYear(y: int): int {
    var p := y - 1;
    365 * p + p / 4 - p / 100 + p / 400
  }

  /** Days from the 1st of January of `y` to the 1st of month `m`. */
  function DaysBeforeMonth(y: int, m: int): int
    requires 0 <= m <= 12
    decreases m
  {
    if m == 0 then 0 else DaysBeforeMonth(y, m - 1) + DaysInMonth(y, m - 1)
  }

  /** The number of `d` counted from 0001-01-01, which is day 0. */
  function DayNumber(d: Date): int
    requires d.Valid()
  {
    DaysBeforeYear(d.year) + DaysBeforeMonth(d.year, d.month) + d.day - 1
  }

  /** Counting multiples of 4, 100 and 400 up to `p + 1` instead of `p` adds one exactly at a multiple. */
  lemma MultiplesStep(p: int)
    ensures (p + 1) / 4 == p / 4 + (if (p + 1) % 4 == 0 then 1 else 0)
    ensures (p + 1) / 100 == p / 100 + (if (p + 1) % 100 == 0 then 1 else 0)
    ensures (p + 1) / 400 == p / 400 + (if (p + 1) % 400 == 0 then 1 else 0)
  {
  }

  lemma HundredIsFour(y: int)
    requires y % 100 == 0
    ensures y % 4 == 0
  {
    var q := y / 100;
    assert y == 4 * (25 * q);
  }

  lemma FourHundredIsHundred(y: int)
    requires y % 400 == 0
    ensures y % 100 == 0
  {
    var q := y / 400;
    assert y == 100 * (4 * q);
  }

  /** The leap days before `y + 1` are those before `y`, plus one when `y` itself is a leap year. */
  lemma LeapCount(y: int)
    ensures y / 4 - y / 100 + y / 400
      == (y - 1) / 4 - (y - 1) / 100 + (y - 1) / 400 + (if IsLeapYear(y) then 1 else 0)
  {
    MultiplesStep(y - 1);
    if y % 100 == 0 {
      HundredIsFour(y);
    }
    if y % 400 == 0 {
      FourHundredIsHundred(y);
    }
  }

  /** A year has 366 days when it is a leap year and 365 otherwise. */
  lemma YearLength(y: int)
    ensures DaysBeforeYear(y + 1) == DaysBeforeYear(y) + (if IsLeapYear(y) then 366 else 365)
  {
    LeapCount(y);
  }

  /** The twelve months of a year add up to its length. */
  lemma MonthsOfYear(y: int)
    ensures DaysBeforeMonth(y, 12) == if IsLeapYear(y) then 366 else 365
  {
    var leap := DaysInMonth(y, 1) - 28;
    assert DaysBeforeMonth(y, 2) == 59 + leap;
    assert DaysBeforeMonth(y, 4) == 120 + leap;
    assert DaysBeforeMonth(y, 6) == 181 + leap;
    assert DaysBeforeMonth(y, 8) == 243 + leap;
    assert DaysBeforeMonth(y, 10) == 304 + leap;
  }

  /** Consecutive days have consecutive day numbers. */
  lemma NextDayNumber(d: Date)
    requires d.Valid()
    ensures DayNumber(NextDay(d)) == DayNumber(d) + 1
  {
    if d.day == DaysInMonth(d.year, d.month) && d.month == 11 {
      YearLength(d.year);
      MonthsOfYear(d.year);
    }
  }

  /** `n` days later is `n` day numbers later. */
  lemma {:induction false} AddDaysNumber(d: Date, n: nat)
    requires d.Valid()
    ensures DayNumber(AddDays(d, n)) == DayNumber(d) + n
  {
    if n > 0 {
      AddDaysNumber(d, n - 1);
      NextDayNumber(AddDays(d, n - 1));
    }
  }

  /** `n` days earlier is `n` day numbers earlier. */
  lemma {:induction false} SubDaysNumber(d: Date, n: nat)
    requires d.Valid()
    ensures DayNumber(SubDays(d, n)) == DayNumber(d) - n
  {
    if n > 0 {
      SubDaysNumber(d, n - 1);
      NextDayNumber(SubDays(d, n));
    }
  }

  /** `getDay`: 0 for Sunday to 6 for Saturday (0001-01-01 was a Monday). */
  function DayOfWeek(d: Date): (w: int)
    requires d.Valid()
    ensures 0 <= w < 7
  {
    (DayNumber(d) + 1) % 7
  }

  /** The JavaScript epoch, 1970-01-01, was a Thursday. */
  lemma EpochIsThursday()
    ensures DayOfWeek(Date(1970, 0, 1)) == 4
  {
  }

  /** The weekday advances by one, cyclically, from one day to the next. */
  lemma NextDayOfWeek(d: Date)
    requires d.Valid()
    ensures DayOfWeek(NextDay(d)) == (DayOfWeek(d) + 1) % 7
  {
    NextDayNumber(d);
    ModSevenStep(DayNumber(d) + 1);
  }

  /** A day as many days before `d` as `d`'s weekday is a Sunday. */
  lemma WeekdayBack(d: Date, e: Date)
    requires d.Valid() && e.Valid()
    requires DayNumber(e) == DayNumber(d) - DayOfWeek(d)
    ensures DayOfWeek(e) == 0
  {
    BackToSunday(DayNumber(e), DayNumber(d));
  }

  /** Stepping back from `b` by `b`'s weekday lands on a number whose weekday is 0. */
  lemma BackToSunday(a: int, b: int)
    requires a == b - (b + 1) % 7
    ensures (a + 1) % 7 == 0
  {
  }

  lemma ModSevenStep(x: int)
    ensures (x + 1) % 7 == (x % 7 + 1) % 7
  {
  }

  /** The 1st of month `m` of year `y`, where a month outside 0..11 carries into the year. */
  function FirstOfMonth(y: int, m: int): (r: Date)
    ensures r.Valid() && r.day == 1
    ensures 12 * r.year + r.month == 12 * y + m
  {
    Date(y + m / 12, m % 12, 1)
  }

  /**
   * The year the Date constructor uses for a year argument `y`: one from 0 to 99
   * is read as 1900 to 1999, every other year as itself.
   */
  function FullYear(y: int): (r: int)
    ensures 0 <= y <= 99 ==> r == 1900 + y
    ensures !(0 <= y <= 99) ==> r == y
    ensures !(0 <= r <= 99)
  {
    if 0 <= y <= 99 then 1900 + y else y
  }

  /**
   * `new Date(y, m, 1)`: the 1st of month `m` of year `y`, a month outside 0..11
   * carrying into the year, and a year from 0 to 99 taken as 1900 to 1999.
   */
  function MonthStart(y: int, m: int): (r: Date)
    ensures r.Valid() && r.day == 1
    ensures (y < 0 || y > 99) ==> 12 * r.year + r.month == 12 * y + m
    ensures 0 <= y <= 99 ==> 12 * r.year + r.month == 12 * (1900 + y) + m
  {
    FirstOfMonth(FullYear(y), m)
  }

  /** A two-digit year is read in the 1900s: `new Date(99, 12, 1)` is the 1st of January 2000. */
  lemma TwoDigitYears()
    ensures MonthStart(99, 12) == Date(2000, 0, 1)
    ensures MonthStart(50, 3) == Date(1950, 3, 1)
  {
  }

  /** The month after month `m` of year `y`: the next month of the same year, or January of the next year. */
  lemma MonthCarry(y: int, m: int)
    requires 0 <= m < 12
    ensures FirstOfMonth(y, m + 1) == if m < 11 then Date(y, m + 1, 1) else Date(y + 1, 0, 1)
  {
  }

  /** The month before month `m` of year `y`: the previous month of the same year, or December of the year before. */
  lemma MonthBorrow(y: int, m: int)
    requires 0 <= m < 12
    ensures FirstOfMonth(y, m - 1) == if m > 0 then Date(y, m - 1, 1) else Date(y - 1, 11, 1)
  {
  }
}
