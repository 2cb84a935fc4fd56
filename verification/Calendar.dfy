/** Dates as day numbers: the closed form the fold computes, proved against counting
    the days of the proleptic Gregorian calendar one at a time from 1970-01-01. */
module Calendar {
  import opened Wrappers

  /** Integer division as the source language does it: towards zero. */
  function TruncDiv(a: int, b: int): int
    requires b > 0
  {
    if a >= 0 then a / b else -((-a) / b)
  }

  /** The source's computation, with its truncating divisions written out. */
  function DaysFromCivil(year: int, month: int, day: int): Option<int> {
    if !(1 <= month <= 12) || !(1 <= day <= 31) then None
    else
      var y := year - (if month <= 2 then 1 else 0);
      var era := TruncDiv(if y >= 0 then y else y - 399, 400);
      var yearOfEra := y - era * 400;
      var dayOfYear := TruncDiv(153 * (month + (if month > 2 then -3 else 9)) + 2, 5) + day - 1;
      var dayOfEra := yearOfEra * 365 + TruncDiv(yearOfEra, 4) - TruncDiv(yearOfEra, 100) + dayOfYear;
      Some(era * 146_097 + dayOfEra - 719_468)
  }

  // ---------------------------------------------------------------- the calendar

  predicate IsLeap(year: int) {
    year % 4 == 0 && (year % 100 != 0 || year % 400 == 0)
  }

  function MonthLength(year: int, month: int): nat
    requires 1 <= month <= 12
  {
    if month == 2 then (if IsLeap(year) then 29 else 28)
    else if month in {4, 6, 9, 11} then 30
    else 31
  }

  datatype Date = Date(year: int, month: int, day: int) {
    predicate Valid() {
      1 <= month <= 12 && 1 <= day <= MonthLength(year, month)
    }

    /** The calendar day after this one. */
    function Next(): Date
      requires Valid()
    {
      if day < MonthLength(year, month) then Date(year, month, day + 1)
      else if month < 12 then Date(year, month + 1, 1)
      else Date(year + 1, 1, 1)
    }

    predicate Before(other: Date) {
      || year < other.year
      || (year == other.year && month < other.month)
      || (year == other.year && month == other.month && day < other.day)
    }
  }

  const EPOCH := Date(1970, 1, 1)

  /** Days from the epoch to 1 January of a year, one year at a time. */
  function YearStart(year: int): int
    decreases if year >= 1970 then year - 1970 else 1970 - year
  {
    if year == 1970 then 0
    else if year > 1970 then YearStart(year - 1) + (if IsLeap(year - 1) then 366 else 365)
    else YearStart(year + 1) - (if IsLeap(year) then 366 else 365)
  }

  /** Days from 1 January to the first of a month, one month at a time. */
  function MonthStart(year: int, month: int): nat
    requires 1 <= month <= 12
  {
    if month == 1 then 0 else MonthStart(year, month - 1) + MonthLength(year, month - 1)
  }

  /** Days from the epoch to a date, by plain counting. */
  function DayNumber(d: Date): int
    requires 1 <= d.month <= 12
  {
    YearStart(d.year) + MonthStart(d.year, d.month) + d.day - 1
  }

  // ----------------------------------------------------------------------- proof

  /** Day number of 1 March of year y, in floor-division form. */
  function MarchClosed(y: int): int {
    365 * y + y / 4 - y / 100 + y / 400 - 719_468
  }

  lemma DivStep(y: int)
    ensures (y - 1) / 4 == if y % 4 == 0 then y / 4 - 1 else y / 4
    ensures (y - 1) / 100 == if y % 100 == 0 then y / 100 - 1 else y / 100
    ensures (y - 1) / 400 == if y % 400 == 0 then y / 400 - 1 else y / 400
  {
  }

  lemma LeapStep(y: int)
    ensures y / 4 - y / 100 + y / 400
         == (y - 1) / 4 - (y - 1) / 100 + (y - 1) / 400 + (if IsLeap(y) then 1 else 0)
  {
    DivStep(y);
    assert y % 400 == 0 ==> y % 100 == 0;
    assert y % 100 == 0 ==> y % 4 == 0;
  }

  /** Counting year by year reaches the closed form. */
  lemma {:induction false} YearStartClosed(year: int)
    ensures YearStart(year) == MarchClosed(year - 1) + 306
    decreases if year >= 1970 then year - 1970 else 1970 - year
  {
    if year > 1970 {
      YearStartClosed(year - 1);
      LeapStep(year - 1);
    } else if year < 1970 {
      YearStartClosed(year + 1);
      LeapStep(year);
    }
  }

  lemma MonthStartClosed(year: int, month: int)
    requires 1 <= month <= 12
    ensures month <= 2 ==> MonthStart(year, month) == (153 * (month + 9) + 2) / 5 - 306
    ensures month > 2 ==>
      MonthStart(year, month) == (153 * (month - 3) + 2) / 5 + 59 + (if IsLeap(year) then 1 else 0)
  {
    assert MonthStart(year, 1) == 0;
    assert MonthStart(year, 2) == 31;
    assert MonthStart(year, 3) == 31 + MonthLength(year, 2);
    assert MonthStart(year, 4) == MonthStart(year, 3) + 31;
    assert MonthStart(year, 5) == MonthStart(year, 4) + 30;
    assert MonthStart(year, 6) == MonthStart(year, 5) + 31;
    assert MonthStart(year, 7) == MonthStart(year, 6) + 30;
    assert MonthStart(year, 8) == MonthStart(year, 7) + 31;
    assert MonthStart(year, 9) == MonthStart(year, 8) + 31;
    assert MonthStart(year, 10) == MonthStart(year, 9) + 30;
    assert MonthStart(year, 11) == MonthStart(year, 10) + 31;
    assert MonthStart(year, 12) == MonthStart(year, 11) + 30;
  }

  /** The era split is exact for negative years too, despite truncation. */
  lemma EraSplit(y: int)
    ensures TruncDiv(if y >= 0 then y else y - 399, 400) == y / 400
    ensures 0 <= y - (y / 400) * 400 < 400
    ensures (y / 400) * 146_097 + (y % 400) * 365 + (y % 400) / 4 - (y % 400) / 100
      == 365 * y + y / 4 - y / 100 + y / 400
  {
    var e, r := y / 400, y % 400;
    assert y == 400 * e + r;
    if y < 0 {
      var k := (399 - y) / 400;
      assert 400 * k <= 399 - y < 400 * k + 400;
      assert e == -k;
    }
    assert y / 4 == 100 * e + r / 4;
    assert y / 100 == 4 * e + r / 100;
  }

  /** The year that starts in March a day falls in, and the days of its months before. */
  function MarchYear(year: int, month: int): int {
    year - (if month <= 2 then 1 else 0)
  }

  function MonthOffset(month: int): int {
    (153 * (month + (if month > 2 then -3 else 9)) + 2) / 5
  }

  lemma ComputedClosed(year: int, month: int, day: int)
    requires 1 <= month <= 12 && 1 <= day <= 31
    ensures DaysFromCivil(year, month, day) == Some(MarchClosed(MarchYear(year, month)) + MonthOffset(month) + day - 1)
  {
    var y := MarchYear(year, month);
    EraSplit(y);
    assert y - (y / 400) * 400 == y % 400;
  }

  lemma CountedClosed(d: Date)
    requires 1 <= d.month <= 12
    ensures DayNumber(d) == MarchClosed(MarchYear(d.year, d.month)) + MonthOffset(d.month) + d.day - 1
  {
    YearStartClosed(d.year);
    MonthStartClosed(d.year, d.month);
    LeapStep(d.year);
  }

  /** The computation is plain day counting for every day it accepts: on a day
      number past the end of its month it counts on into the next one. */
  lemma DaysFromCivilIsCounting(d: Date)
    ensures DaysFromCivil(d.year, d.month, d.day).Some? <==> 1 <= d.month <= 12 && 1 <= d.day <= 31
    ensures 1 <= d.month <= 12 && 1 <= d.day <= 31 ==> DaysFromCivil(d.year, d.month, d.day) == Some(DayNumber(d))
  {
    if 1 <= d.month <= 12 && 1 <= d.day <= 31 {
      ComputedClosed(d.year, d.month, d.day);
      CountedClosed(d);
    }
  }

  lemma {:induction false} MonthStartMonotone(year: int, m: int, n: int)
    requires 1 <= m < n <= 12
    ensures MonthStart(year, m) + MonthLength(year, m) <= MonthStart(year, n)
    decreases n - m
  {
    if m + 1 < n {
      MonthStartMonotone(year, m, n - 1);
    }
  }

  lemma {:induction false} YearStartMonotone(a: int, b: int)
    requires a < b
    ensures YearStart(a) + (if IsLeap(a) then 366 else 365) <= YearStart(b)
    decreases b - a
  {
    YearStartClosed(a); YearStartClosed(b); YearStartClosed(b - 1);
    LeapStep(b - 1); LeapStep(a); YearStartClosed(a + 1);
    if a + 1 < b {
      YearStartMonotone(a, b - 1);
    }
  }

  lemma DayWithinYear(d: Date)
    requires d.Valid()
    ensures 0 <= MonthStart(d.year, d.month) + d.day - 1 < (if IsLeap(d.year) then 366 else 365)
  {
    MonthStartClosed(d.year, 12);
    if d.month < 12 {
      MonthStartMonotone(d.year, d.month, 12);
    }
  }

  lemma CountingMonotone(a: Date, b: Date)
    requires a.Valid() && b.Valid() && a.Before(b)
    ensures DayNumber(a) < DayNumber(b)
  {
    DayWithinYear(a); DayWithinYear(b);
    if a.year < b.year {
      YearStartMonotone(a.year, b.year);
    } else if a.month < b.month {
      MonthStartMonotone(a.year, a.month, b.month);
    }
  }

  lemma NextDay(a: Date)
    requires a.Valid()
    ensures a.Next().Valid() && DayNumber(a.Next()) == DayNumber(a) + 1
  {
    if a.month == 12 && a.day == 31 {
      YearStartClosed(a.year); YearStartClosed(a.year + 1); LeapStep(a.year);
      MonthStartClosed(a.year, 12);
    }
  }

  /** Over real dates the result orders days exactly as the calendar does, so
      no two dates share an instant, and the next calendar day is one more,
      across month, leap and century ends and below year zero. */
  lemma DaysFromCivilOrdersDates(a: Date, b: Date)
    requires a.Valid() && b.Valid()
    ensures DaysFromCivil(a.year, a.month, a.day).Some? && DaysFromCivil(b.year, b.month, b.day).Some?
    ensures DaysFromCivil(a.year, a.month, a.day).value < DaysFromCivil(b.year, b.month, b.day).value <==> a.Before(b)
    ensures DaysFromCivil(a.year, a.month, a.day) == DaysFromCivil(b.year, b.month, b.day) <==> a == b
    ensures b == a.Next() ==>
      DaysFromCivil(b.year, b.month, b.day).value == DaysFromCivil(a.year, a.month, a.day).value + 1
    ensures a == EPOCH ==> DaysFromCivil(a.year, a.month, a.day) == Some(0)
  {
    DaysFromCivilIsCounting(a);
    DaysFromCivilIsCounting(b);
    if a.Before(b) {
      CountingMonotone(a, b);
    } else if b.Before(a) {
      CountingMonotone(b, a);
    }
    NextDay(a);
  }

  /** A day past the end of its month, but not past 31, is accepted and read as the
      day of the next month it runs into, and that one is a date. */
  lemma ImpossibleDayIsAccepted(year: int, month: int, day: int)
    requires 1 <= month <= 12 && MonthLength(year, month) < day <= 31
    ensures var next := Date(year, month + 1, day - MonthLength(year, month));
      && next.Valid() && DaysFromCivil(year, month, day).Some?
      && DaysFromCivil(year, month, day) == DaysFromCivil(next.year, next.month, next.day)
  {
    DaysFromCivilIsCounting(Date(year, month, day));
    DaysFromCivilIsCounting(Date(year, month + 1, day - MonthLength(year, month)));
  }

  lemma LastOfFebruaryIsMarch()
    ensures DaysFromCivil(2023, 2, 31) == DaysFromCivil(2023, 3, 3) && !Date(2023, 2, 31).Valid()
  {
  }
}
