/**
 The calendar arithmetic of helpers/dates.py on the proleptic Gregorian calendar.

 A date is counted by `Ordinal`, the closed formula that numbers the days; month lengths and leap
 years are those of section 5.7 and Appendix C of RFC 3339. Every fact about walking a calendar is
 stated against that count.
 */
module Dates {

  datatype Unit = Day | Week | Month | Year

  datatype Date = Date(year: int, month: int, day: int)

  /** An instant in UTC: a date and the microseconds since its midnight. */
  datatype Moment = Moment(date: Date, time: nat)

  const DAY_MICROS := 86_400_000_000

  predicate Leap(y: int) {
    y % 4 == 0 && (y % 100 != 0 || y % 400 == 0)
  }

  function MonthLength(y: int, m: int): (n: int)
    requires 1 <= m <= 12
    ensures 28 <= n <= 31
  {
    if m == 2 then (if Leap(y) then 29 else 28)
    else if m in {4, 6, 9, 11} then 30 else 31
  }

  predicate ValidDate(d: Date) {
    1 <= d.month <= 12 && 1 <= d.day <= MonthLength(d.year, d.month)
  }

  predicate Valid(t: Moment) {
    ValidDate(t.date) && t.time < DAY_MICROS
  }

  // ---------------------------------------------------------------- counting days

  function DaysBeforeYear(y: int): int {
    (y - 1) * 365 + (y - 1) / 4 - (y - 1) / 100 + (y - 1) / 400
  }

  function DaysBeforeMonth(y: int, m: int): int
    requires 1 <= m <= 13
    decreases m
  {
    if m == 1 then 0 else DaysBeforeMonth(y, m - 1) + MonthLength(y, m - 1)
  }

  /** Day 1 is the first of January of year 1. */
  function Ordinal(d: Date): int
    requires 1 <= d.month <= 12
  {
    DaysBeforeYear(d.year) + DaysBeforeMonth(d.year, d.month) + d.day
  }

  lemma FirstDay()
    ensures Ordinal(Date(1, 1, 1)) == 1
  {
  }

  function Instant(t: Moment): int
    requires Valid(t)
  {
    Ordinal(t.date) * DAY_MICROS + t.time
  }

  /** Months counted from the January of year 0. */
  function Index(d: Date): int {
    12 * d.year + d.month - 1
  }

  /** The days before the first of the month an index names. */
  function Start(i: int): int {
    DaysBeforeYear(i / 12) + DaysBeforeMonth(i / 12, i % 12 + 1)
  }

  function Length(i: int): (n: int)
    ensures 28 <= n <= 31
  {
    MonthLength(i / 12, i % 12 + 1)
  }

  lemma IndexSplits(d: Date)
    requires 1 <= d.month <= 12
    ensures Index(d) / 12 == d.year && Index(d) % 12 + 1 == d.month
    ensures Ordinal(d) == Start(Index(d)) + d.day
    ensures Length(Index(d)) == MonthLength(d.year, d.month)
  {
  }

  lemma YearLength(y: int)
    ensures DaysBeforeYear(y + 1) == DaysBeforeYear(y) + (if Leap(y) then 366 else 365)
  {
    assert y / 4 == (y - 1) / 4 + (if y % 4 == 0 then 1 else 0);
    assert y / 100 == (y - 1) / 100 + (if y % 100 == 0 then 1 else 0);
    assert y / 400 == (y - 1) / 400 + (if y % 400 == 0 then 1 else 0);
  }

  lemma YearOfMonths(y: int)
    ensures DaysBeforeMonth(y, 13) == (if Leap(y) then 366 else 365)
  {
  }

  function ClosedStart(m: int): int {
    (367 * m - 362) / 12 - (if m <= 2 then 0 else 2)
  }

  lemma MonthOfClosed(m: int)
    requires 1 <= m <= 12 && m != 2
    ensures ClosedStart(m + 1) - ClosedStart(m) == if m in {4, 6, 9, 11} then 30 else 31
    ensures ClosedStart(1) == 0 && ClosedStart(3) == 59
  {
  }

  /** The days before a month, summed from the lengths, are those of the closed formula of the calendar, so no length can be another. */
  lemma {:induction false} MonthStartsAt(y: int, m: int)
    requires 1 <= m <= 13
    ensures DaysBeforeMonth(y, m) == (367 * m - 362) / 12 - (if m <= 2 then 0 else 2) + (if m > 2 && y % 4 == 0 && (y % 100 != 0 || y % 400 == 0) then 1 else 0)
    decreases m
  {
    if m > 1 {
      MonthStartsAt(y, m - 1);
      if m != 3 {
        MonthOfClosed(m - 1);
        assert DaysBeforeMonth(y, m) == ClosedStart(m) + (if m > 2 && Leap(y) then 1 else 0) by {
          assert DaysBeforeMonth(y, m - 1) == ClosedStart(m - 1) + (if m - 1 > 2 && Leap(y) then 1 else 0);
          hide ClosedStart;
        }
      }
    }
  }

  /** The months tile the calendar: the next one starts where this one ends. */
  lemma StartOfNext(i: int)
    ensures Start(i + 1) == Start(i) + Length(i)
  {
    if i % 12 == 11 {
      assert (i + 1) / 12 == i / 12 + 1 && (i + 1) % 12 == 0;
      YearLength(i / 12);
      YearOfMonths(i / 12);
    } else {
      assert (i + 1) / 12 == i / 12 && (i + 1) % 12 == i % 12 + 1;
    }
  }

  lemma {:induction false} StartsApart(i: int, n: nat)
    ensures Start(i + n) >= Start(i) + 28 * n
    ensures n >= 1 ==> Start(i + n) >= Start(i) + Length(i) + 28 * (n - 1)
    decreases n
  {
    hide Start, Length;
    if n > 0 {
      StartsApart(i, n - 1);
      StartOfNext(i + n - 1);
    }
  }

  /** Counting days loses nothing: valid dates are ordered by their ordinals, year, month and day in turn. */
  lemma OrdinalOrders(c: Date, d: Date)
    requires ValidDate(c) && ValidDate(d)
    ensures Ordinal(c) <= Ordinal(d) <==> Index(c) < Index(d) || (Index(c) == Index(d) && c.day <= d.day)
    ensures Ordinal(c) == Ordinal(d) <==> c == d
  {
    hide Start, Ordinal, Length;
    IndexSplits(c);
    IndexSplits(d);
    if Index(c) < Index(d) {
      StartsApart(Index(c), Index(d) - Index(c));
    } else if Index(d) < Index(c) {
      StartsApart(Index(d), Index(c) - Index(d));
    }
  }

  // ---------------------------------------------------------------- add_months

  function Min(a: int, b: int): int {
    if a <= b then a else b
  }

  function AddMonths(d: Date, months: int): Date
    requires ValidDate(d)
  {
    var total := d.month - 1 + months;
    var year := d.year + total / 12;
    var month := total % 12 + 1;
    Date(year, month, Min(d.day, MonthLength(year, month)))
  }

  /** The target is the month that many months away, on the asked day or the last day it has. */
  lemma AddMonthsLands(d: Date, months: int)
    requires ValidDate(d)
    ensures ValidDate(AddMonths(d, months))
    ensures Index(AddMonths(d, months)) == Index(d) + months
    ensures AddMonths(d, months).day == Min(d.day, Length(Index(d) + months))
    ensures AddMonths(d, 0) == d
  {
  }

  /** A month is never shorter than twenty-eight days, clamped or not. */
  lemma AddMonthsLater(d: Date, n: nat)
    requires ValidDate(d)
    ensures Ordinal(AddMonths(d, n)) >= Ordinal(d) + 28 * n
  {
    hide Start, Ordinal, Length, AddMonths;
    AddMonthsLands(d, n);
    IndexSplits(d);
    IndexSplits(AddMonths(d, n));
    StartsApart(Index(d), n);
  }

  lemma AddMonthsMonotone(c: Date, d: Date, months: int)
    requires ValidDate(c) && ValidDate(d) && Ordinal(c) <= Ordinal(d)
    ensures ValidDate(AddMonths(c, months)) && ValidDate(AddMonths(d, months))
    ensures Ordinal(AddMonths(c, months)) <= Ordinal(AddMonths(d, months))
  {
    OrdinalOrders(c, d);
    AddMonthsLands(c, months);
    AddMonthsLands(d, months);
    OrdinalOrders(AddMonths(c, months), AddMonths(d, months));
  }

  /** Two steps reach the month of one long step, on a day no later; the same day unless the stop between clamped it lower. */
  lemma AddMonthsComposes(d: Date, a: int, b: int)
    requires ValidDate(d)
    ensures ValidDate(AddMonths(d, a))
    ensures var two := AddMonths(AddMonths(d, a), b);
            var one := AddMonths(d, a + b);
            && Index(two) == Index(one)
            && two.day <= one.day
            && (two == one <==> one.day <= Length(Index(d) + a))
  {
    AddMonthsLands(d, a);
    AddMonthsLands(AddMonths(d, a), b);
    AddMonthsLands(d, a + b);
    var two := AddMonths(AddMonths(d, a), b);
    var one := AddMonths(d, a + b);
    assert two.year == one.year by { IndexSplits(two); IndexSplits(one); }
  }

  lemma YearAway(i: int)
    ensures Start(i + 12) >= Start(i) + 365
    ensures i % 12 == 1 && Leap(i / 12) ==> Start(i + 12) == Start(i) + 366
  {
    var y := i / 12;
    assert (i + 12) / 12 == y + 1 && (i + 12) % 12 == i % 12;
    YearLength(y);
    if i % 12 <= 1 {
      assert DaysBeforeMonth(y, 2) == 31 == DaysBeforeMonth(y + 1, 2);
    } else {
      PastFebruary(y, y + 1, i % 12 + 1);
    }
  }

  lemma {:induction false} PastFebruary(y: int, z: int, m: int)
    requires 3 <= m <= 13
    ensures DaysBeforeMonth(z, m) - DaysBeforeMonth(y, m) == MonthLength(z, 2) - MonthLength(y, 2)
    decreases m
  {
    if m == 3 {
      assert DaysBeforeMonth(z, 2) == DaysBeforeMonth(y, 2) == 31;
    } else {
      PastFebruary(y, z, m - 1);
    }
  }

  lemma {:induction false} YearsApart(i: int, k: nat)
    ensures Start(i + 12 * k) >= Start(i) + 365 * k
    ensures k >= 1 && i % 12 == 1 && Leap(i / 12) ==> Start(i + 12 * k) > Start(i) + 365 * k
    decreases k
  {
    hide Start;
    if k > 0 {
      YearsApart(i, k - 1);
      YearAway(i + 12 * (k - 1));
      assert i + 12 * (k - 1) + 12 == i + 12 * k;
      if k == 1 {
        YearAway(i);
      }
    }
  }

  /** A year is never shorter than 365 days, the 29th of February included. */
  lemma AddYearsLater(d: Date, k: nat)
    requires ValidDate(d)
    ensures Ordinal(AddMonths(d, 12 * k)) >= Ordinal(d) + 365 * k
  {
    hide Start, Ordinal, Length, AddMonths;
    var i := Index(d);
    var later := AddMonths(d, 12 * k);
    AddMonthsLands(d, 12 * k);
    IndexSplits(d);
    IndexSplits(later);
    YearsApart(i, k);
    assert (i + 12 * k) % 12 == i % 12 && (i + 12 * k) / 12 == i / 12 + k;
    if later.day < d.day {
      assert i % 12 == 1 && Leap(i / 12) && k >= 1;
    }
  }

  // ---------------------------------------------------------------- adding days

  function FirstOfNext(d: Date): Date {
    if d.month == 12 then Date(d.year + 1, 1, 1) else Date(d.year, d.month + 1, 1)
  }

  function LastOfPrevious(d: Date): Date
    requires 1 <= d.month <= 12
  {
    if d.month == 1 then Date(d.year - 1, 12, 31) else Date(d.year, d.month - 1, MonthLength(d.year, d.month - 1))
  }

  lemma NextMonthBegins(d: Date)
    requires ValidDate(d)
    ensures ValidDate(FirstOfNext(d)) && Ordinal(FirstOfNext(d)) == Ordinal(d) + MonthLength(d.year, d.month) - d.day + 1
  {
    if d.month == 12 {
      YearLength(d.year);
      YearOfMonths(d.year);
    }
  }

  lemma PreviousMonthEnds(d: Date)
    requires ValidDate(d)
    ensures ValidDate(LastOfPrevious(d)) && Ordinal(LastOfPrevious(d)) == Ordinal(d) - d.day
  {
    if d.month == 1 {
      YearLength(d.year - 1);
      YearOfMonths(d.year - 1);
    }
  }

  /** The date so many days away, carried month by month in either direction. */
  function AddDays(d: Date, n: int): (r: Date)
    requires ValidDate(d)
    decreases if n < 0 then -n else n
  {
    var length := MonthLength(d.year, d.month);
    if 1 <= d.day + n <= length then d.(day := d.day + n)
    else if n > 0 then AddDays(FirstOfNext(d), n - (length - d.day + 1))
    else AddDays(LastOfPrevious(d), n + d.day)
  }

  /** Carrying days is adding them to the count, so with `OrdinalOrders` there is no other date it could be. */
  lemma {:induction false} AddDaysCounts(d: Date, n: int)
    requires ValidDate(d)
    ensures ValidDate(AddDays(d, n)) && Ordinal(AddDays(d, n)) == Ordinal(d) + n
    decreases if n < 0 then -n else n
  {
    var length := MonthLength(d.year, d.month);
    if !(1 <= d.day + n <= length) {
      if n > 0 {
        NextMonthBegins(d);
        AddDaysCounts(FirstOfNext(d), n - (length - d.day + 1));
      } else {
        PreviousMonthEnds(d);
        AddDaysCounts(LastOfPrevious(d), n + d.day);
      }
    }
  }

  // ---------------------------------------------------------------- add_interval

  /** The pair a unit stands for: its days, and its months. */
  function Steps(u: Unit): (int, int) {
    match u
    case Day => (1, 0)
    case Week => (7, 0)
    case Month => (0, 1)
    case Year => (0, 12)
  }

  function AddInterval(t: Moment, u: Unit, value: int): (r: Moment)
    requires Valid(t)
    ensures Valid(r) && r.time == t.time
  {
    AddDaysCounts(t.date, Steps(u).0 * value);
    var moved := AddDays(t.date, Steps(u).0 * value);
    AddMonthsLands(moved, Steps(u).1 * value);
    Moment(AddMonths(moved, Steps(u).1 * value), t.time)
  }

  /** The fewest days one unit can be. */
  function Least(u: Unit): nat {
    match u
    case Day => 1
    case Week => 7
    case Month => 28
    case Year => 365
  }

  /** A month step lands that many months on and a year step twelve times as many, a day and a week step on that many days and seven times as many. */
  lemma AddIntervalLands(t: Moment, u: Unit, value: int)
    requires Valid(t)
    ensures var r := AddInterval(t, u, value);
            && r.time == t.time && ValidDate(r.date)
            && (u.Day? ==> Ordinal(r.date) == Ordinal(t.date) + value)
            && (u.Week? ==> Ordinal(r.date) == Ordinal(t.date) + 7 * value)
            && (u.Month? ==> MonthsOn(t.date, value, r.date))
            && (u.Year? ==> MonthsOn(t.date, 12 * value, r.date))
  {
    hide Ordinal, MonthLength;
    IntervalMoves(t, u, value);
    assert Valid(AddInterval(t, u, value));
    if u.Month? || u.Year? {
      AddMonthsIsOn(t.date, Steps(u).1 * value);
    }
  }

  /** That many months on, on the same day or the last one there is. */
  predicate MonthsOn(d: Date, months: int, r: Date) {
    && 1 <= r.month <= 12
    && 12 * r.year + r.month == 12 * d.year + d.month + months
    && r.day == if d.day <= MonthLength(r.year, r.month) then d.day else MonthLength(r.year, r.month)
  }

  lemma AddMonthsIsOn(d: Date, months: int)
    requires ValidDate(d)
    ensures MonthsOn(d, months, AddMonths(d, months))
  {
    hide MonthLength;
    var total := d.month - 1 + months;
    assert total == 12 * (total / 12) + total % 12;
  }

  /** Every unit walks forward by at least its shortest length, on a day count and on the clock. */
  lemma AddIntervalLater(t: Moment, u: Unit, value: nat)
    requires Valid(t)
    ensures Ordinal(AddInterval(t, u, value).date) >= Ordinal(t.date) + Least(u) * value
    ensures Instant(AddInterval(t, u, value)) >= Instant(t) + Least(u) * value * DAY_MICROS
    ensures u.Day? || u.Week? ==> Ordinal(AddInterval(t, u, value).date) == Ordinal(t.date) + Least(u) * value
  {
    var days := Steps(u).0 * value;
    AddDaysCounts(t.date, days);
    AddMonthsLands(AddDays(t.date, days), 0);
    match u {
      case Day =>
      case Week =>
      case Month =>
        assert AddDays(t.date, 0) == t.date;
        AddMonthsLater(t.date, value);
      case Year =>
        assert AddDays(t.date, 0) == t.date;
        AddYearsLater(t.date, value);
    }
  }

  /** A later day never walks to an earlier day; the time of day is what clamping does not keep in order. */
  lemma AddIntervalMonotoneByDay(s: Moment, t: Moment, u: Unit, value: int)
    requires Valid(s) && Valid(t) && Ordinal(s.date) <= Ordinal(t.date)
    ensures Ordinal(AddInterval(s, u, value).date) <= Ordinal(AddInterval(t, u, value).date)
  {
    var days := Steps(u).0 * value;
    AddDaysCounts(s.date, days);
    AddDaysCounts(t.date, days);
    AddMonthsMonotone(AddDays(s.date, days), AddDays(t.date, days), Steps(u).1 * value);
  }

  /** Both dates clamp to the last day of one month while the earlier one is later in its day. */
  predicate ClampsPast(s: Moment, t: Moment, months: int) {
    s.time > t.time && Index(s.date) == Index(t.date) && s.date.day != t.date.day && s.date.day >= Length(Index(s.date) + months)
  }

  lemma InstantOrders(s: Moment, t: Moment)
    requires Valid(s) && Valid(t)
    ensures Instant(s) <= Instant(t) <==> Ordinal(s.date) < Ordinal(t.date) || (s.date == t.date && s.time <= t.time)
  {
    OrdinalOrders(s.date, t.date);
    hide Ordinal;
  }

  lemma IntervalMoves(t: Moment, u: Unit, value: int)
    requires Valid(t)
    ensures u.Month? || u.Year? ==> AddInterval(t, u, value).date == AddMonths(t.date, Steps(u).1 * value)
    ensures u.Day? || u.Week? ==> ValidDate(AddInterval(t, u, value).date) && Ordinal(AddInterval(t, u, value).date) == Ordinal(t.date) + Steps(u).0 * value
  {
    AddDaysCounts(t.date, Steps(u).0 * value);
    AddMonthsLands(AddDays(t.date, Steps(u).0 * value), 0);
  }

  /** A date later than another: in a later month, or later in the same one. */
  predicate Before(c: Date, d: Date) {
    Index(c) < Index(d) || (Index(c) == Index(d) && c.day < d.day)
  }

  predicate InOrder(s: Moment, t: Moment) {
    Before(s.date, t.date) || (Index(s.date) == Index(t.date) && s.date.day == t.date.day && s.time <= t.time)
  }

  lemma InstantsByMonth(s: Moment, t: Moment)
    requires Valid(s) && Valid(t)
    ensures Instant(s) <= Instant(t) <==> InOrder(s, t)
  {
    InstantOrders(s, t);
    hide Instant, Ordinal, MonthLength, Index;
    OrdinalOrders(s.date, t.date);
    OrdinalOrders(t.date, s.date);
  }

  predicate Lands(s: Moment, months: int, a: Moment) {
    a.time == s.time && Index(a.date) == Index(s.date) + months && a.date.day == Min(s.date.day, Length(Index(s.date) + months))
  }

  lemma LandingsOrder(s: Moment, t: Moment, months: int, a: Moment, b: Moment)
    requires InOrder(s, t) && Lands(s, months, a) && Lands(t, months, b)
    ensures InOrder(a, b) <==> !ClampsPast(s, t, months)
  {
    hide Index, Length;
  }

  lemma MonthsOrderExactlyWhen(s: Moment, t: Moment, months: int)
    requires Valid(s) && Valid(t) && Instant(s) <= Instant(t)
    ensures var (a, b) := (s.(date := AddMonths(s.date, months)), t.(date := AddMonths(t.date, months)));
            Valid(a) && Valid(b) && (Instant(a) <= Instant(b) <==> !ClampsPast(s, t, months))
  {
    hide Instant, AddMonths, Length, MonthLength, Index, ClampsPast, InOrder;
    var (a, b) := (s.(date := AddMonths(s.date, months)), t.(date := AddMonths(t.date, months)));
    AddMonthsLands(s.date, months);
    AddMonthsLands(t.date, months);
    InstantsByMonth(s, t);
    InstantsByMonth(a, b);
    LandingsOrder(s, t, months, a, b);
  }

  /** Two instants in order stay in order under every day and week step, and under a month or year step exactly unless both clamp past. */
  lemma ClockOrderHoldsExactlyWhen(s: Moment, t: Moment, u: Unit, value: int)
    requires Valid(s) && Valid(t) && Instant(s) <= Instant(t)
    ensures Instant(AddInterval(s, u, value)) <= Instant(AddInterval(t, u, value)) <==>
            u.Day? || u.Week? || !ClampsPast(s, t, Steps(u).1 * value)
  {
    var (a, b) := (AddInterval(s, u, value), AddInterval(t, u, value));
    IntervalMoves(s, u, value);
    IntervalMoves(t, u, value);
    if u.Month? || u.Year? {
      MonthsOrderExactlyWhen(s, t, Steps(u).1 * value);
    } else {
      InstantOrders(s, t);
      InstantOrders(a, b);
      hide Instant, AddInterval, ClampsPast;
      OrdinalOrders(a.date, b.date);
    }
  }

  /** And clamping past does happen: two instants in order that one month puts out of order. */
  lemma TimeOfDayIsNotMonotone()
    ensures var s := Moment(Date(2024, 1, 30), 100);
            var t := Moment(Date(2024, 1, 31), 50);
            && Valid(s) && Valid(t) && Instant(s) < Instant(t)
            && Instant(AddInterval(s, Month, 1)) > Instant(AddInterval(t, Month, 1))
  {
  }
}
