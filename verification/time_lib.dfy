/**
 * The two conversions of the TimeLib library that the DS3231 branch of
 * src/WatchyRTC.cpp goes through: `makeTime`, from a `tmElements_t` to the
 * seconds since 1 January 1970 in a `uint32_t`, and `breakTime`, back again,
 * which recomputes the weekday from the day count.  `Year` counts from 1970
 * here, as in `tmElements_t`.
 *
 * `makeTime` adds up whatever fields it is given, so a date past the end
 * of its month comes back from `breakTime` as a date in the next month.
 */
module TimeLib {

  import opened TimeElements

  /** The Gregorian leap-year rule, for the year `y` of the common era. */
  predicate LeapYear(y: int)
  {
    y % 4 == 0 && (y % 100 != 0 || y % 400 == 0)
  }

  /** `LEAP_YEAR(Y)`: whether the year `1970 + Y` is a leap year. */
  predicate Leap(y: int)
  {
    1970 + y > 0 && LeapYear(1970 + y)
  }

  /** The days of the year `1970 + y`. */
  function YearDays(y: int): int
  {
    if Leap(y) then 366 else 365
  }

  /**
   * `monthDays[m0]`, with February's leap day: the length of month `m0`
   * (0 for January).
   */
  function MonthLength(m0: int, leap: bool): (n: int)
    requires 0 <= m0 < 12
    ensures 28 <= n <= 31
  {
    if m0 == 1 then (if leap then 29 else 28)
    else if m0 == 3 || m0 == 5 || m0 == 8 || m0 == 10 then 30
    else 31
  }

  /**
   * The month loop of `makeTime`, month by month: the day of the year
   * (from 0) on which month `m0` starts; for `m0 == 12`, the length of the
   * year.
   */
  function MonthStart(m0: nat, leap: bool): int
    requires m0 <= 12
  {
    if m0 == 0 then 0 else MonthStart(m0 - 1, leap) + MonthLength(m0 - 1, leap)
  }

  /** The first loop of `makeTime`: the days from 1 January 1970 to 1 January of the year `1970 + y`, year by year. */
  function YearStart(y: nat): nat
  {
    if y == 0 then 0 else YearStart(y - 1) + YearDays(y - 1)
  }

  /** The twelve months make up the year. */
  lemma MonthsMakeYear(leap: bool)
    ensures MonthStart(12, leap) == if leap then 366 else 365
  {
    if leap {
      assert MonthStart(12, true) == 366;
    } else {
      assert MonthStart(12, false) == 365;
    }
  }

  /**
   * `makeTime(tm)`: the seconds since 1 January 1970, wrapped into a
   * `uint32_t`.  The month loop reads `monthDays[i - 1]` for `i` up to
   * `Month - 1`, so a month above 13 reads past the table.  From January
   * on, the loop adds up to the day of the year the month starts on.
   */
  function MakeTime(tm: Tm): (t: int)
    requires tm.Month <= 13
    ensures 0 <= t < 0x1_0000_0000
  {
    var months := if tm.Month == 0 then 0 else MonthStart(tm.Month - 1, Leap(tm.Year));
    ((YearStart(tm.Year) + months + tm.Day - 1) * 86400 + tm.Hour * 3600 + tm.Minute * 60 + tm.Second) % 0x1_0000_0000
  }

  /** The year loop of `breakTime`: from `year` on, the year whose days contain day `time` (counted from 1 January 1970). */
  function FindYear(year: nat, time: nat): (y: nat)
    requires YearStart(year) <= time
    ensures year <= y && YearStart(y) <= time < YearStart(y) + YearDays(y)
    decreases time - YearStart(year)
  {
    if YearStart(year) + YearDays(year) <= time then FindYear(year + 1, time) else year
  }

  /**
   * The month loop of `breakTime`: from month `m0` on, with `time` days of
   * the year left, the month and the day within it.  Given a day of the
   * year, the result is the month that contains it.
   */
  function FindMonth(m0: nat, time: int, leap: bool): (r: (nat, int))
    requires m0 <= 12
    ensures 0 <= time && MonthStart(m0, leap) + time < MonthStart(12, leap) ==>
              m0 <= r.0 < 12 && 0 <= r.1 < MonthLength(r.0, leap) &&
              MonthStart(r.0, leap) + r.1 == MonthStart(m0, leap) + time
    decreases 12 - m0
  {
    if m0 == 12 then (12, time)
    else if time >= MonthLength(m0, leap) then
      FindMonth(m0 + 1, time - MonthLength(m0, leap), leap)
    else (m0, time)
  }

  /** Each year has at least 365 days. */
  lemma {:induction false} YearStartAtLeast(y: nat)
    ensures YearStart(y) >= 365 * y
  {
    if y > 0 {
      YearStartAtLeast(y - 1);
    }
  }

  /**
   * The two loops of `breakTime`: the year (from 1970), the month and the
   * day of the month (both from 0) of day `days` since 1 January 1970.
   * They land on the date whose calendar day count is `days`.
   */
  function DateOf(days: nat): (d: (nat, nat, int))
    ensures d.1 < 12 && 0 <= d.2 < MonthLength(d.1, Leap(d.0))
    ensures YearStart(d.0) + MonthStart(d.1, Leap(d.0)) + d.2 == days
    ensures 365 * d.0 <= days
  {
    var year := FindYear(0, days);
    YearStartAtLeast(year);
    MonthsMakeYear(Leap(year));
    var r := FindMonth(0, days - YearStart(year), Leap(year));
    (year, r.0, r.1)
  }

  /** The weekday of day `days` since 1 January 1970, which was a Thursday; Sunday is 1. */
  function Weekday(days: int): (w: int)
    ensures 1 <= w <= 7
  {
    (days + 4) % 7 + 1
  }

  /**
   * `breakTime(t, tm)`: seconds, minutes and hours from the remainders,
   * the weekday from the day count (1 January 1970 was a Thursday, and
   * Sunday is 1), then the year, the month and the day by the two loops.
   */
  function BreakTime(t: int): (tm: Tm)
    requires 0 <= t < 0x1_0000_0000
    ensures tm.Second < 60 && tm.Minute < 60 && tm.Hour < 24 && 1 <= tm.Wday <= 7
    ensures 1 <= tm.Month <= 12 && 1 <= tm.Day <= MonthLength(tm.Month - 1, Leap(tm.Year))
  {
    var days := t / 86400;
    var d := DateOf(days);
    Tm(t % 60, t / 60 % 60, t / 3600 % 24, Weekday(days), d.2 + 1, d.1 + 1, d.0)
  }

  // ---------------------------------------------------------------------
  // The round trips

  /** A date that is on the calendar, at a time of day that is on the clock. */
  predicate RealDate(tm: Tm)
  {
    1 <= tm.Month <= 12 && 1 <= tm.Day <= MonthLength(tm.Month - 1, Leap(tm.Year)) &&
    tm.Hour < 24 && tm.Minute < 60 && tm.Second < 60
  }

  /** The seconds of a day split into hours, minutes and seconds, and put back together. */
  lemma SplitSeconds(t: int)
    requires t >= 0
    ensures t == t / 86400 * 86400 + t / 3600 % 24 * 3600 + t / 60 % 60 * 60 + t % 60
  {
    var a, s := t / 60, t % 60;
    var b, m := a / 60, a % 60;
    var c, h := b / 24, b % 24;
    assert t == 60 * a + s && a == 60 * b + m && b == 24 * c + h;
    assert t == 86400 * c + 3600 * h + 60 * m + s;
    assert t / 3600 == b && t / 86400 == c;
  }

  /** Days and a time of day, joined into seconds and split again. */
  lemma JoinSeconds(t: int, d: int, hour: int, minute: int, second: int)
    requires d >= 0 && 0 <= hour < 24 && 0 <= minute < 60 && 0 <= second < 60
    requires t == d * 86400 + hour * 3600 + minute * 60 + second
    ensures t / 86400 == d && t / 3600 % 24 == hour && t / 60 % 60 == minute && t % 60 == second
  {
    assert t == 60 * (60 * (24 * d + hour) + minute) + second;
    assert t / 60 == 60 * (24 * d + hour) + minute;
    assert t / 3600 == 24 * d + hour;
  }

  /** Years start further on the later they are. */
  lemma {:induction false} YearStartMonotone(a: nat, b: nat)
    requires a <= b
    ensures YearStart(a) <= YearStart(b)
    decreases b - a
  {
    if a < b {
      YearStartMonotone(a, b - 1);
    }
  }

  /** A year starts where the one before it ends. */
  lemma YearStartStep(y: nat)
    ensures YearStart(y + 1) == YearStart(y) + YearDays(y)
  {
  }

  /** A later year starts after an earlier one has ended. */
  lemma LaterYear(a: nat, b: nat)
    requires a < b
    ensures YearStart(a) + YearDays(a) <= YearStart(b)
  {
    YearStartStep(a);
    YearStartMonotone(a + 1, b);
  }

  /** A day count lies in one year only. */
  lemma YearUnique(y1: nat, y2: nat, time: nat)
    requires YearStart(y1) <= time < YearStart(y1) + YearDays(y1)
    requires YearStart(y2) <= time < YearStart(y2) + YearDays(y2)
    ensures y1 == y2
  {
    if y1 < y2 {
      LaterYear(y1, y2);
    } else if y2 < y1 {
      LaterYear(y2, y1);
    }
  }

  /** Months start further on the later they are. */
  lemma {:induction false} MonthStartMonotone(a: int, b: int, leap: bool)
    requires 0 <= a <= b <= 12
    ensures MonthStart(a, leap) <= MonthStart(b, leap)
    decreases b - a
  {
    if a < b {
      MonthStartMonotone(a, b - 1, leap);
    }
  }

  /** A day of the year lies in one month only. */
  lemma MonthUnique(m1: int, d1: int, m2: int, d2: int, leap: bool)
    requires 0 <= m1 < 12 && 0 <= d1 < MonthLength(m1, leap)
    requires 0 <= m2 < 12 && 0 <= d2 < MonthLength(m2, leap)
    requires MonthStart(m1, leap) + d1 == MonthStart(m2, leap) + d2
    ensures m1 == m2 && d1 == d2
  {
    if m1 < m2 {
      MonthStartMonotone(m1 + 1, m2, leap);
    } else if m2 < m1 {
      MonthStartMonotone(m2 + 1, m1, leap);
    }
  }

  /** At most one year in four is a leap year, counting from 1970, so 1970 + 136 years is 49674 days at most. */
  lemma {:induction false} YearStartAtMost(y: nat)
    ensures YearStart(y) <= 365 * y + (y + 1) / 4
  {
    if y > 0 {
      YearStartAtMost(y - 1);
      if Leap(y - 1) {
        assert (y - 1) % 4 == 2;
      }
    }
  }

  /** Two dates of the calendar with the same day count are the same date. */
  lemma DateUnique(y1: nat, m1: int, d1: int, y2: nat, m2: int, d2: int)
    requires 0 <= m1 < 12 && 0 <= d1 < MonthLength(m1, Leap(y1))
    requires 0 <= m2 < 12 && 0 <= d2 < MonthLength(m2, Leap(y2))
    requires YearStart(y1) + MonthStart(m1, Leap(y1)) + d1 == YearStart(y2) + MonthStart(m2, Leap(y2)) + d2
    ensures y1 == y2 && m1 == m2 && d1 == d2
  {
    InYear(y1, m1, d1);
    InYear(y2, m2, d2);
    YearUnique(y1, y2, YearStart(y1) + MonthStart(m1, Leap(y1)) + d1);
    MonthUnique(m1, d1, m2, d2, Leap(y1));
  }

  /** A day of the calendar lies within its year. */
  lemma InYear(y: nat, m0: int, d0: int)
    requires 0 <= m0 < 12 && 0 <= d0 < MonthLength(m0, Leap(y))
    ensures 0 <= MonthStart(m0, Leap(y)) + d0 < YearDays(y)
  {
    MonthsMakeYear(Leap(y));
    MonthStartMonotone(m0 + 1, 12, Leap(y));
  }

  /** The two loops of `breakTime` find the date whose calendar day count is `days`, and no other. */
  lemma DateOfUnique(days: nat, y: nat, m0: int, d0: int)
    requires 0 <= m0 < 12 && 0 <= d0 < MonthLength(m0, Leap(y))
    requires days == YearStart(y) + MonthStart(m0, Leap(y)) + d0
    ensures DateOf(days) == (y, m0, d0)
  {
    var d := DateOf(days);
    DateUnique(d.0, d.1, d.2, y, m0, d0);
  }

  /**
   * `breakTime` is the inverse of the calendar: the second of day `d0` of
   * month `m0` (both from 0) of the year `1970 + y` at the given time of
   * day breaks into exactly those fields, with the weekday of its day count.
   */
  lemma BreakTimeOfDate(t: int, days: int, y: nat, m0: int, d0: int, hour: int, minute: int, second: int)
    requires 0 <= m0 < 12 && 0 <= d0 < MonthLength(m0, Leap(y))
    requires days == YearStart(y) + MonthStart(m0, Leap(y)) + d0
    requires 0 <= hour < 24 && 0 <= minute < 60 && 0 <= second < 60
    requires (days + 1) * 86400 <= 0x1_0000_0000
    requires t == days * 86400 + hour * 3600 + minute * 60 + second
    ensures 0 <= t < 0x1_0000_0000 && y < 0x100
    ensures BreakTime(t) == Tm(second, minute, hour, Weekday(days), d0 + 1, m0 + 1, y)
  {
    MonthStartMonotone(0, m0, Leap(y));
    JoinSeconds(t, days, hour, minute, second);
    DateOfUnique(days, y, m0, d0);
    assert DateOf(t / 86400) == (y, m0, d0);
  }

  /** Seconds split by `breakTime` and joined again by `makeTime`. */
  lemma Recompose(t: int, days: int)
    requires 0 <= t < 0x1_0000_0000 && days == t / 86400
    ensures (days * 86400 + t / 3600 % 24 * 3600 + t / 60 % 60 * 60 + t % 60) % 0x1_0000_0000 == t
  {
    SplitSeconds(t);
  }

  /** Every `uint32_t` survives `breakTime` then `makeTime`: `breakTime` is a right inverse of `makeTime`. */
  lemma MakeBreakTime(t: int)
    requires 0 <= t < 0x1_0000_0000
    ensures MakeTime(BreakTime(t)) == t
  {
    var days := t / 86400;
    var d := DateOf(days);
    var tm := BreakTime(t);
    assert tm == Tm(t % 60, t / 60 % 60, t / 3600 % 24, Weekday(days), d.2 + 1, d.1 + 1, d.0);
    MakeTimeOfDays(tm, days, d.0, d.1, d.2);
    Recompose(t, days);
  }

  /** `makeTime` of a date whose calendar day count is `days`. */
  lemma MakeTimeOfDays(tm: Tm, days: int, y: nat, m0: nat, d0: int)
    requires m0 < 12 && tm.Year == y && tm.Month == m0 + 1 && tm.Day == d0 + 1
    requires days == YearStart(y) + MonthStart(m0, Leap(y)) + d0
    ensures MakeTime(tm) == (days * 86400 + tm.Hour * 3600 + tm.Minute * 60 + tm.Second) % 0x1_0000_0000
  {
  }

  /**
   * A real date of the years 1970 to 2105 survives `makeTime` then
   * `breakTime`, except that its weekday is recomputed from its day count.
   */
  lemma BreakMakeTime(tm: Tm)
    requires RealDate(tm) && tm.Year <= 135
    ensures BreakTime(MakeTime(tm)) == tm.(Wday := BreakTime(MakeTime(tm)).Wday)
    ensures BreakTime(MakeTime(tm)).Wday == Weekday(YearStart(tm.Year) + MonthStart(tm.Month - 1, Leap(tm.Year)) + tm.Day - 1)
  {
    var days := YearStart(tm.Year) + MonthStart(tm.Month - 1, Leap(tm.Year)) + tm.Day - 1;
    InRange(tm.Year, tm.Month - 1, tm.Day - 1);
    MonthStartMonotone(0, tm.Month - 1, Leap(tm.Year));
    MakeTimeNoWrap(tm, days);
    BreakTimeOfDate(MakeTime(tm), days, tm.Year, tm.Month - 1, tm.Day - 1, tm.Hour, tm.Minute, tm.Second);
  }

  /** Before 2106 the sum `makeTime` builds does not wrap. */
  lemma MakeTimeNoWrap(tm: Tm, days: int)
    requires 1 <= tm.Month <= 13 && tm.Hour < 24 && tm.Minute < 60 && tm.Second < 60
    requires days == YearStart(tm.Year) + MonthStart(tm.Month - 1, Leap(tm.Year)) + tm.Day - 1
    requires 0 <= days && (days + 1) * 86400 <= 0x1_0000_0000
    ensures MakeTime(tm) == days * 86400 + tm.Hour * 3600 + tm.Minute * 60 + tm.Second
  {
  }

  /** Up to the end of 2105, the seconds since 1970 fit a `uint32_t`. */
  lemma InRange(y: nat, m0: int, d0: int)
    requires y <= 135 && 0 <= m0 < 12 && 0 <= d0 < MonthLength(m0, Leap(y))
    ensures (YearStart(y) + MonthStart(m0, Leap(y)) + d0 + 1) * 86400 <= 0x1_0000_0000
  {
    MonthsMakeYear(Leap(y));
    MonthStartMonotone(m0 + 1, 12, Leap(y));
    YearStartMonotone(y + 1, 136);
    YearStartAtMost(136);
  }

  /**
   * A day past the end of its month, by no more than the next month's
   * length, comes back from `makeTime` then `breakTime` as a day of the
   * next month: 31 February is 3 March, or 2 March in a leap year.
   */
  lemma DayPastMonthEnd(tm: Tm)
    requires 1 <= tm.Month <= 11 && tm.Year <= 135
    requires MonthLength(tm.Month - 1, Leap(tm.Year)) < tm.Day <= MonthLength(tm.Month - 1, Leap(tm.Year)) + MonthLength(tm.Month, Leap(tm.Year))
    requires tm.Hour < 24 && tm.Minute < 60 && tm.Second < 60
    ensures BreakTime(MakeTime(tm)).Month == tm.Month + 1
    ensures BreakTime(MakeTime(tm)).Day == tm.Day - MonthLength(tm.Month - 1, Leap(tm.Year))
    ensures BreakTime(MakeTime(tm)) == tm.(Wday := BreakTime(MakeTime(tm)).Wday, Month := tm.Month + 1,
                                           Day := tm.Day - MonthLength(tm.Month - 1, Leap(tm.Year)))
  {
    var leap := Leap(tm.Year);
    var d0 := tm.Day - 1 - MonthLength(tm.Month - 1, leap);
    var days := YearStart(tm.Year) + MonthStart(tm.Month, leap) + d0;
    InRange(tm.Year, tm.Month, d0);
    MonthStartMonotone(0, tm.Month, leap);
    MakeTimeNoWrap(tm, days);
    BreakTimeOfDate(MakeTime(tm), days, tm.Year, tm.Month, d0, tm.Hour, tm.Minute, tm.Second);
  }
}
