/**
 * The mini calendar widget: the `YYYY-MM-DD` keys it files events under, the
 * same-day test, the 42-day month grid that starts on a Sunday, the grouping of
 * events by date and the month navigation. A point in time is a `Moment`: a
 * calendar day plus the milliseconds into that day, which only `IsSameDay`
 * and the keys ignore.
 */
module CalendarMini {
  import opened Wrappers
  import opened Text
  import opened CivilDate

  /** A local point in time: the day and the milliseconds elapsed since its midnight. */
  datatype Moment = Moment(date: Date, msOfDay: nat)

  /** `pad`: a number below 10 gets a leading zero, so a number of 0..99 becomes exactly two digits. */
  function Pad(n: int): (r: string)
    ensures 0 <= n <= 99 ==> |r| == 2 && AllDigits(r) && ParseDigits(r) == n
    ensures 0 <= n < 10 ==> r[0] == '0'
    ensures n >= 10 ==> r == IntToString(n)
  {
    if n < 10 then
      (if 0 <= n then OneDigit(n); "0" + IntToString(n) else "0" + IntToString(n))
    else
      (if n <= 99 then TwoDigits(n); IntToString(n) else IntToString(n))
  }

  lemma OneDigit(n: int)
    requires 0 <= n < 10
    ensures var r := "0" + IntToString(n); AllDigits(r) && ParseDigits(r) == n
  {
    var r := "0" + IntToString(n);
    assert r == ['0', DigitChar(n)];
    assert r[..1] == ['0'] && ['0'][..0] == [];
  }

  lemma TwoDigits(n: int)
    requires 10 <= n <= 99
    ensures |IntToString(n)| == 2 && AllDigits(IntToString(n)) && ParseDigits(IntToString(n)) == n
  {
    ParseNatToString(n);
    assert NatToString(n) == NatToString(n / 10) + [DigitChar(n % 10)];
  }

  /** A year of 1000..9999 prints as four digits. */
  lemma FourDigitYear(y: int)
    ensures 1000 <= y <= 9999 ==> |IntToString(y)| == 4
  {
    if 1000 <= y <= 9999 {
      assert NatToString(y) == NatToString(y / 10) + [DigitChar(y % 10)];
      assert NatToString(y / 10) == NatToString(y / 100) + [DigitChar(y / 10 % 10)];
      assert NatToString(y / 100) == NatToString(y / 1000) + [DigitChar(y / 100 % 10)];
    }
  }

  /**
   * `ymd`: the year, a dash, the 1-based month in two digits, a dash and the day
   * in two digits. The year is printed in full, so years of 1000..9999 give the
   * ten-character `YYYY-MM-DD`.
   */
  function Ymd(d: Date): (r: string)
    requires d.Valid()
    ensures |r| >= 7 && r[|r| - 6] == '-' && r[|r| - 3] == '-'
    ensures r[..|r| - 6] == IntToString(d.year)
    ensures AllDigits(r[|r| - 5..|r| - 3]) && ParseDigits(r[|r| - 5..|r| - 3]) == d.month + 1
    ensures AllDigits(r[|r| - 2..]) && ParseDigits(r[|r| - 2..]) == d.day
    ensures 1000 <= d.year <= 9999 ==> |r| == 10
  {
    var y := IntToString(d.year);
    var mm := Pad(d.month + 1);
    var dd := Pad(d.day);
    var r := y + "-" + mm + "-" + dd;
    assert |mm| == 2 && |dd| == 2 && |r| == |y| + 6;
    assert r[..|r| - 6] == y;
    assert r[|r| - 5..|r| - 3] == mm;
    assert r[|r| - 2..] == dd;
    FourDigitYear(d.year);
    r
  }

  /** Reads a `ymd` key back: a signed year, then `-MM-DD`. */
  function ParseYmd(s: string): Option<Date> {
    if && |s| >= 7 && s[|s| - 6] == '-' && s[|s| - 3] == '-'
       && IsIntString(s[..|s| - 6]) && AllDigits(s[|s| - 5..|s| - 3]) && AllDigits(s[|s| - 2..])
    then Some(Date(ParseInt(s[..|s| - 6]), ParseDigits(s[|s| - 5..|s| - 3]) - 1, ParseDigits(s[|s| - 2..])))
    else None
  }

  /** A day's key reads back as that day. */
  lemma YmdRoundTrip(d: Date)
    requires d.Valid()
    ensures ParseYmd(Ymd(d)) == Some(d)
  {
    ParseIntToString(d.year);
  }

  /** Different days have different keys, so no two days share an event list. */
  lemma YmdInjective(a: Date, b: Date)
    requires a.Valid() && b.Valid()
    ensures Ymd(a) == Ymd(b) <==> a == b
  {
    if Ymd(a) == Ymd(b) {
      YmdRoundTrip(a);
      YmdRoundTrip(b);
    }
  }

  /** `isSameDay`: the two moments fall on the same calendar day, whatever their times. */
  function IsSameDay(a: Moment, b: Moment): (r: bool)
    ensures r <==> a.date == b.date
  {
    a.date.year == b.date.year && a.date.month == b.date.month && a.date.day == b.date.day
  }

  /** Two moments are on the same day exactly when their event keys agree. */
  lemma SameDayIffSameKey(a: Moment, b: Moment)
    requires a.date.Valid() && b.date.Valid()
    ensures IsSameDay(a, b) <==> Ymd(a.date) == Ymd(b.date)
  {
    YmdInjective(a.date, b.date);
  }

  /** The grid starts on the Sunday on or before the 1st: back as many days as the 1st's weekday. */
  lemma GridStartsOnSunday(first: Date)
    requires first.Valid()
    ensures DayOfWeek(SubDays(first, DayOfWeek(first))) == 0
  {
    var w := DayOfWeek(first);
    SubDaysNumber(first, w);
    WeekdayBack(first, SubDays(first, w));
  }

  /** Going back `n` days and then forward `k <= n` days is going back `n - k` days. */
  lemma {:induction false} AddAfterSubDays(d: Date, n: nat, k: nat)
    requires d.Valid() && k <= n
    ensures AddDays(SubDays(d, n), k) == SubDays(d, n - k)
  {
    if k > 0 {
      AddAfterSubDays(d, n, k - 1);
    }
  }

  /** The day before the 1st of a month is the last day of the previous month. */
  lemma PrevDayOfMonthStart(first: Date)
    requires first.Valid() && first.day == 1
    ensures var p := FirstOfMonth(first.year, first.month - 1);
      PrevDay(first) == Date(p.year, p.month, DaysInMonth(p.year, p.month))
  {
    MonthBorrow(first.year, first.month);
  }

  /** The day after the last of a month is the 1st of the next month. */
  lemma NextMonthStart(first: Date)
    requires first.Valid() && first.day == 1
    ensures AddDays(first, DaysInMonth(first.year, first.month)) == FirstOfMonth(first.year, first.month + 1)
  {
    var dim := DaysInMonth(first.year, first.month);
    AddDaysWithinMonth(first, dim - 1);
    MonthCarry(first.year, first.month);
  }

  /** Grid cells before the 1st hold the last days of the previous month. */
  lemma LeadingCell(first: Date, k: nat)
    requires first.Valid() && first.day == 1 && k < DayOfWeek(first)
    ensures var p := FirstOfMonth(first.year, first.month - 1);
      AddDays(SubDays(first, DayOfWeek(first)), k)
        == Date(p.year, p.month, DaysInMonth(p.year, p.month) - DayOfWeek(first) + k + 1)
  {
    var off := DayOfWeek(first);
    AddAfterSubDays(first, off, k);
    PrevDayOfMonthStart(first);
    SubDaysIntoPrevMonth(first, off - k);
  }

  /** From the 1st on, the grid cell `k` is `k - offset` days after the 1st. */
  lemma CellFromFirst(first: Date, k: nat)
    requires first.Valid() && DayOfWeek(first) <= k
    ensures AddDays(SubDays(first, DayOfWeek(first)), k) == AddDays(first, k - DayOfWeek(first))
  {
    var off := DayOfWeek(first);
    AddSubDays(first, off);
    AddDaysAdditive(SubDays(first, off), off, k - off);
  }

  /** Grid cells after the last of the month hold the first days of the next month. */
  lemma TrailingCell(first: Date, j: nat)
    requires first.Valid() && first.day == 1
    requires DaysInMonth(first.year, first.month) <= j < 42
    ensures var n := FirstOfMonth(first.year, first.month + 1);
      AddDays(first, j) == Date(n.year, n.month, j - DaysInMonth(first.year, first.month) + 1)
  {
    var dim := DaysInMonth(first.year, first.month);
    var n := FirstOfMonth(first.year, first.month + 1);
    NextMonthStart(first);
    AddDaysAdditive(first, dim, j - dim);
    AddDaysWithinMonth(n, j - dim);
  }

  /** `days` is the 42-day grid that starts on the Sunday on or before `first`. */
  ghost predicate IsGrid(first: Date, days: seq<Date>)
    requires first.Valid()
  {
    |days| == 42 && forall k :: 0 <= k < 42 ==> days[k] == AddDays(SubDays(first, DayOfWeek(first)), k)
  }

  /** The grid's leading cells are the tail of the previous month. */
  lemma GridLeading(first: Date, days: seq<Date>)
    requires first.Valid() && first.day == 1 && IsGrid(first, days)
    ensures var off := DayOfWeek(first);
      var prev := FirstOfMonth(first.year, first.month - 1);
      forall k :: 0 <= k < off ==> days[k] == Date(prev.year, prev.month, DaysInMonth(prev.year, prev.month) - off + k + 1)
  {
    forall k | 0 <= k < DayOfWeek(first)
      ensures var prev := FirstOfMonth(first.year, first.month - 1);
        days[k] == Date(prev.year, prev.month, DaysInMonth(prev.year, prev.month) - DayOfWeek(first) + k + 1)
    {
      LeadingCell(first, k);
    }
  }

  /** The grid's middle cells are every day of the month, in order. */
  lemma GridMonth(first: Date, days: seq<Date>)
    requires first.Valid() && first.day == 1 && IsGrid(first, days)
    ensures var off := DayOfWeek(first);
      var dim := DaysInMonth(first.year, first.month);
      forall k :: off <= k < off + dim ==> days[k] == Date(first.year, first.month, k - off + 1)
  {
    var off := DayOfWeek(first);
    var dim := DaysInMonth(first.year, first.month);
    forall k | off <= k < off + dim
      ensures days[k] == Date(first.year, first.month, k - off + 1)
    {
      CellFromFirst(first, k);
      AddDaysWithinMonth(first, k - off);
    }
  }

  /** The grid's trailing cells are the head of the next month. */
  lemma GridTrailing(first: Date, days: seq<Date>)
    requires first.Valid() && first.day == 1 && IsGrid(first, days)
    ensures var off := DayOfWeek(first);
      var dim := DaysInMonth(first.year, first.month);
      var next := FirstOfMonth(first.year, first.month + 1);
      forall k :: off + dim <= k < 42 ==> days[k] == Date(next.year, next.month, k - off - dim + 1)
  {
    var off := DayOfWeek(first);
    var dim := DaysInMonth(first.year, first.month);
    forall k | off + dim <= k < 42
      ensures var next := FirstOfMonth(first.year, first.month + 1);
        days[k] == Date(next.year, next.month, k - off - dim + 1)
    {
      CellFromFirst(first, k);
      TrailingCell(first, k - off);
    }
  }

  /** Every cell of the grid is a real day, the first a Sunday, cell `k` the day `k` days after the first. */
  lemma GridDays(first: Date, days: seq<Date>)
    requires first.Valid() && first.day == 1 && IsGrid(first, days)
    requires DayOfWeek(SubDays(first, DayOfWeek(first))) == 0
    ensures forall k :: 0 <= k < 42 ==> days[k].Valid()
    ensures DayOfWeek(days[0]) == 0
    ensures forall k :: 0 <= k < 42 ==> days[k] == AddDays(days[0], k)
  {
    var start := SubDays(first, DayOfWeek(first));
    assert days[0] == start;
  }

  /**
   * The month view of the month starting at `first`: 42 real days, the first a
   * Sunday, cell `k` the day `k` days after the first cell; the tail of the
   * previous month, then every day of the month in order, then the head of the
   * next month.
   */
  ghost predicate MonthGrid(first: Date, days: seq<Date>)
    requires first.Valid()
  {
    var off := DayOfWeek(first);
    var dim := DaysInMonth(first.year, first.month);
    var prev := FirstOfMonth(first.year, first.month - 1);
    var next := FirstOfMonth(first.year, first.month + 1);
    && |days| == 42
    && (forall k :: 0 <= k < |days| ==> days[k].Valid())
    && DayOfWeek(days[0]) == 0
    && (forall k :: 0 <= k < 42 ==> days[k] == AddDays(days[0], k))
    && (forall k :: 0 <= k < off ==> days[k] == Date(prev.year, prev.month, DaysInMonth(prev.year, prev.month) - off + k + 1))
    && (forall k :: off <= k < off + dim ==> days[k] == Date(first.year, first.month, k - off + 1))
    && (forall k :: off + dim <= k < 42 ==> days[k] == Date(next.year, next.month, k - off - dim + 1))
  }

  /** The grid that starts on the Sunday on or before the 1st has the shape of the month view. */
  lemma GridShape(first: Date, days: seq<Date>)
    requires first.Valid() && first.day == 1 && IsGrid(first, days)
    requires DayOfWeek(SubDays(first, DayOfWeek(first))) == 0
    ensures MonthGrid(first, days)
  {
    GridDays(first, days);
    GridLeading(first, days);
    GridMonth(first, days);
    GridTrailing(first, days);
  }

  /**
   * `getMonthMatrix`: 42 consecutive days starting on the Sunday on or before the
   * 1st of the viewed month: the tail of the previous month, every day of the
   * month in order, then the head of the next month.
   */
  method GetMonthMatrix(view: Date) returns (days: seq<Date>)
    ensures MonthGrid(MonthStart(view.year, view.month), days)
  {
    var first := MonthStart(view.year, view.month);
    var firstDay := DayOfWeek(first);
    var start := SubDays(first, firstDay);
    days := [];
    var i := 0;
    while i < 42
      invariant 0 <= i <= 42 && |days| == i
      invariant forall k :: 0 <= k < i ==> days[k] == AddDays(start, k)
    {
      days := days + [AddDays(start, i)];
      i := i + 1;
    }
    GridStartsOnSunday(first);
    assert IsGrid(first, days);
    GridShape(first, days);
  }

  /** One entry of the `events` property: the day key it belongs to and its label (`caption`). */
  datatype Event = Event(date: string, caption: string)

  /** The events filed under `key`, in input order. */
  function EventsOn(events: seq<Event>, key: string): (r: seq<Event>)
    ensures |r| <= |events|
    ensures forall e :: e in r <==> e in events && e.date == key
    ensures r == [] <==> forall e :: e in events ==> e.date != key
    decreases |events|
  {
    if events == [] then []
    else
      var last := events[|events| - 1];
      var init := EventsOn(events[..|events| - 1], key);
      assert events == events[..|events| - 1] + [last];
      if last.date == key then init + [last] else init
  }

  /** Grouping a concatenation keeps the first part's events before the second part's. */
  lemma {:induction false} EventsOnAppend(a: seq<Event>, b: seq<Event>, key: string)
    ensures EventsOn(a + b, key) == EventsOn(a, key) + EventsOn(b, key)
    decreases |b|
  {
    if b != [] {
      var b' := b[..|b| - 1];
      assert (a + b)[..|a + b| - 1] == a + b';
      EventsOnAppend(a, b', key);
    } else {
      assert a + b == a;
    }
  }

  lemma EventsOnSnoc(s: seq<Event>, e: Event, key: string)
    ensures EventsOn(s + [e], key) == if e.date == key then EventsOn(s, key) + [e] else EventsOn(s, key)
  {
    assert (s + [e])[..|s|] == s;
  }

  /** `eventMap.get(key) || []`: the list filed under `key`, or none. */
  function EventsFor(m: map<string, seq<Event>>, key: string): (r: seq<Event>)
    ensures key !in m ==> r == []
    ensures key in m ==> r == m[key]
  {
    if key in m then m[key] else []
  }

  /**
   * The `eventMap` loop: each event is appended to the list of its date, a list
   * being started the first time a date is seen. Exactly the dates that have
   * events are keys, and each holds its events in input order.
   */
  method BuildEventMap(events: seq<Event>) returns (m: map<string, seq<Event>>)
    ensures forall key :: key in m <==> EventsOn(events, key) != []
    ensures forall key :: EventsFor(m, key) == EventsOn(events, key)
  {
    m := map[];
    var i := 0;
    while i < |events|
      invariant 0 <= i <= |events|
      invariant forall key :: EventsFor(m, key) == EventsOn(events[..i], key)
      invariant forall key :: key in m ==> m[key] != []
    {
      var e := events[i];
      ghost var before := events[..i];
      assert events[..i + 1] == before + [e];
      if e.date !in m {
        m := m[e.date := []];
      }
      m := m[e.date := m[e.date] + [e]];
      forall key
        ensures EventsFor(m, key) == EventsOn(before + [e], key)
      {
        EventsOnSnoc(before, e, key);
      }
      i := i + 1;
    }
    assert events[..i] == events;
  }

  /** The state of the widget: the month on view (always its 1st) and the selected moment. */
  class CalendarView {
    var viewDate: Date
    var selected: Moment

    ghost predicate Valid()
      reads this
    {
      viewDate.Valid() && viewDate.day == 1 && selected.date.Valid()
    }

    /**
     * The view opens on the 1st of the initial moment's month, with that moment
     * selected; a year from 0 to 99 is read in the 1900s.
     */
    constructor (initial: Moment)
      requires initial.date.Valid()
      ensures Valid()
      ensures viewDate == Date(FullYear(initial.date.year), initial.date.month, 1)
      ensures selected == initial
    {
      viewDate := MonthStart(initial.date.year, initial.date.month);
      selected := initial;
    }

    /**
     * `gotoPrev`: the 1st of the previous month, stepping back a year from
     * January; a year from 0 to 99 on view is first read in the 1900s.
     */
    method GotoPrev()
      requires Valid()
      modifies this
      ensures Valid()
      ensures old(viewDate.month) > 0 ==> viewDate == Date(FullYear(old(viewDate.year)), old(viewDate.month) - 1, 1)
      ensures old(viewDate.month) == 0 ==> viewDate == Date(FullYear(old(viewDate.year)) - 1, 11, 1)
      ensures selected == old(selected)
    {
      MonthBorrow(FullYear(viewDate.year), viewDate.month);
      viewDate := MonthStart(viewDate.year, viewDate.month - 1);
    }

    /**
     * `gotoNext`: the 1st of the next month, stepping on a year from December;
     * a year from 0 to 99 on view is first read in the 1900s.
     */
    method GotoNext()
      requires Valid()
      modifies this
      ensures Valid()
      ensures old(viewDate.month) < 11 ==> viewDate == Date(FullYear(old(viewDate.year)), old(viewDate.month) + 1, 1)
      ensures old(viewDate.month) == 11 ==> viewDate == Date(FullYear(old(viewDate.year)) + 1, 0, 1)
      ensures selected == old(selected)
    {
      MonthCarry(FullYear(viewDate.year), viewDate.month);
      viewDate := MonthStart(viewDate.year, viewDate.month + 1);
    }

    /** `gotoToday`: the view moves to the current month and the current moment is selected. */
    method GotoToday(now: Moment)
      requires Valid() && now.date.Valid()
      modifies this
      ensures Valid()
      ensures viewDate == Date(FullYear(now.date.year), now.date.month, 1)
      ensures selected == now
    {
      viewDate := MonthStart(now.date.year, now.date.month);
      selected := now;
    }

    /** Clicking a grid cell selects that day (at its midnight); the view stays. */
    method Select(d: Date)
      requires Valid() && d.Valid()
      modifies this
      ensures Valid()
      ensures selected == Moment(d, 0)
      ensures viewDate == old(viewDate)
    {
      selected := Moment(d, 0);
    }
  }

  /**
   * Moving to the next month and back returns to the same month, except from
   * December of year -1: its next month is January of year 0, which the Date
   * constructor then reads as 1900.
   */
  lemma NextThenPrev(y: int, m: int)
    requires 0 <= m < 12 && !(y == -1 && m == 11)
    ensures var n := MonthStart(y, m + 1); MonthStart(n.year, n.month - 1) == MonthStart(y, m)
  {
    var n := MonthStart(y, m + 1);
    var fy := FullYear(y);
    assert 12 * n.year + n.month == 12 * fy + m + 1;
    assert n.year == fy || n.year == fy + 1;
    SameMonth(MonthStart(n.year, n.month - 1), MonthStart(y, m));
  }

  /** From December of year -1, next then previous lands on December 1899. */
  lemma NextThenPrevBeforeYearZero()
    ensures var n := MonthStart(-1, 12); n == Date(0, 0, 1) && MonthStart(n.year, n.month - 1) == Date(1899, 11, 1)
  {
  }

  /**
   * Moving to the previous month and forward returns to the same month, except
   * from January of year 100: its previous month is December of year 99, which
   * the Date constructor then reads as 1999.
   */
  lemma PrevThenNext(y: int, m: int)
    requires 0 <= m < 12 && !(y == 100 && m == 0)
    ensures var p := MonthStart(y, m - 1); MonthStart(p.year, p.month + 1) == MonthStart(y, m)
  {
    var p := MonthStart(y, m - 1);
    var fy := FullYear(y);
    assert 12 * p.year + p.month == 12 * fy + m - 1;
    assert p.year == fy || p.year == fy - 1;
    SameMonth(MonthStart(p.year, p.month + 1), MonthStart(y, m));
  }

  /** From January of year 100, previous then next lands on January 2000. */
  lemma PrevThenNextFromYear100()
    ensures var p := MonthStart(100, -1); p == Date(99, 11, 1) && MonthStart(p.year, p.month + 1) == Date(2000, 0, 1)
  {
  }

  /** Two 1sts of a month with the same month count since year 0 are the same day. */
  lemma SameMonth(a: Date, b: Date)
    requires a.Valid() && b.Valid() && a.day == 1 && b.day == 1
    requires 12 * a.year + a.month == 12 * b.year + b.month
    ensures a == b
  {
  }
}
