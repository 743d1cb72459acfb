/**
 * The real-time clock driver of src/WatchyRTC.cpp, for its two chips (the
 * DS3231 and the PCF8563): the conversions between the firmware's
 * `tmElements_t` (whose `Year` counts from 2000) and what each chip holds,
 * Sakamoto's day of the week, the date-string configuration, and the
 * refresh-mode state machine that programs the chip's alarms or timer and
 * the ESP32's EXT0 wake source.
 *
 * The DS3231 is modelled as holding the time TimeLib's `breakTime` makes of
 * the seconds `makeTime` computes (so its `Year` counts from 1970 and its
 * weekday is recomputed); the PCF8563 as its date and time registers.
 */
module Rtc {

  import opened Watchy
  import opened TimeElements
  import opened Fields
  import opened TimeLib

  // ---------------------------------------------------------------------
  // Day of the week (src/WatchyRTC.cpp:183-188)

  /** C's `/` on `int`: the quotient truncated toward zero. */
  function Quot(a: int, b: int): int
    requires b > 0
  {
    if a >= 0 then a / b else -((-a) / b)
  }

  /** C's `%` on `int`: the remainder takes the sign of the dividend. */
  function Rem(a: int, b: int): int
    requires b > 0
  {
    a - b * Quot(a, b)
  }

  /** Sakamoto's month offsets, `t[]`. */
  const MonthOffset: seq<int> := [0, 3, 2, 5, 0, 3, 5, 1, 4, 6, 2, 4]

  /** `_getDayOfWeek(d, m, y)`: 0 is Sunday.  `t[m - 1]` needs a month in 1..12. */
  function DayOfWeek(d: int, m: int, y: int): int
    requires 1 <= m <= 12
  {
    var y1 := if m < 3 then y - 1 else y;
    Rem(y1 + Quot(y1, 4) - Quot(y1, 100) + Quot(y1, 400) + MonthOffset[m - 1] + d, 7)
  }

  /** The days of the years before year `y`, counting from 1 January of year 1, year by year. */
  function DaysBeforeYear(y: int): int
    requires y >= 1
    decreases y
  {
    if y == 1 then 0 else DaysBeforeYear(y - 1) + (if LeapYear(y - 1) then 366 else 365)
  }

  /** The days of a common year before the first of each month. */
  const DaysBeforeMonth: seq<int> := [0, 31, 59, 90, 120, 151, 181, 212, 243, 273, 304, 334]

  /** The ordinal of day `d` of month `m` of year `y`; 1 January of year 1, a Monday, is day 1. */
  function DayNumber(d: int, m: int, y: int): int
    requires 1 <= m <= 12 && y >= 1
  {
    DaysBeforeYear(y) + DaysBeforeMonth[m - 1] + (if m > 2 && LeapYear(y) then 1 else 0) + d
  }

  /** The leap years up to and including year `n`. */
  function LeapsThrough(n: int): int
  {
    n / 4 - n / 100 + n / 400
  }

  lemma DivStep4(n: int)
    requires n >= 1
    ensures n / 4 - (n - 1) / 4 == if n % 4 == 0 then 1 else 0
  {
  }

  lemma DivStep100(n: int)
    requires n >= 1
    ensures n / 100 - (n - 1) / 100 == if n % 100 == 0 then 1 else 0
  {
  }

  lemma DivStep400(n: int)
    requires n >= 1
    ensures n / 400 - (n - 1) / 400 == if n % 400 == 0 then 1 else 0
  {
  }

  /** Every year divisible by 400 is divisible by 100, and every one divisible by 100 is divisible by 4. */
  lemma DivisorChain(n: int)
    ensures n % 400 == 0 ==> n % 100 == 0
    ensures n % 100 == 0 ==> n % 4 == 0
  {
    if n % 400 == 0 {
      var q := n / 400;
      assert n == 100 * (4 * q);
      MultipleOf100(4 * q);
    }
    if n % 100 == 0 {
      var q := n / 100;
      assert n == 4 * (25 * q);
      MultipleOf4(25 * q);
    }
  }

  lemma MultipleOf100(k: int)
    ensures (100 * k) % 100 == 0
  {
  }

  lemma MultipleOf4(k: int)
    ensures (4 * k) % 4 == 0
  {
  }

  /** Year `n` adds one to the leap-year count exactly when it is a leap year. */
  lemma LeapsStep(n: int)
    requires n >= 1
    ensures LeapsThrough(n) == LeapsThrough(n - 1) + (if LeapYear(n) then 1 else 0)
  {
    DivStep4(n);
    DivStep100(n);
    DivStep400(n);
    DivisorChain(n);
  }

  /** The year-by-year count has the closed form Sakamoto's method relies on. */
  lemma {:induction false} DaysBeforeYearClosed(y: int)
    requires y >= 1
    ensures DaysBeforeYear(y) == 365 * (y - 1) + LeapsThrough(y - 1)
    decreases y
  {
    if y > 1 {
      DaysBeforeYearClosed(y - 1);
      LeapsStep(y - 1);
    }
  }

  /** The sum whose remainder modulo 7 `_getDayOfWeek` returns. */
  function SakamotoSum(d: int, m: int, y: int): int
    requires 1 <= m <= 12
  {
    var y1 := if m < 3 then y - 1 else y;
    y1 + Quot(y1, 4) - Quot(y1, 100) + Quot(y1, 400) + MonthOffset[m - 1] + d
  }

  lemma SakamotoSumNonNegative(d: int, m: int, y: int)
    requires 1 <= m <= 12 && y >= 1 && d >= 0
    ensures SakamotoSum(d, m, y) >= 0 && DayOfWeek(d, m, y) == SakamotoSum(d, m, y) % 7
  {
    var y1 := if m < 3 then y - 1 else y;
    assert y1 / 100 <= y1 / 4;
  }

  /** The day ordinal and Sakamoto's sum differ by a multiple of 7. */
  lemma DayNumberShift(d: int, m: int, y: int) returns (k: int)
    requires 1 <= m <= 12 && y >= 1 && d >= 0
    ensures DayNumber(d, m, y) == SakamotoSum(d, m, y) + 7 * k
  {
    DaysBeforeYearClosed(y);
    if m < 3 {
      k := 52 * (y - 1) + (if m == 1 then 0 else 4);
    } else {
      LeapsStep(y);
      var c := [0, 0, 8, 12, 17, 21, 25, 30, 34, 38, 43, 47][m - 1];
      assert DaysBeforeMonth[m - 1] - MonthOffset[m - 1] - 1 == 7 * c;
      k := 52 * (y - 1) + c;
    }
  }

  /**
   * Sakamoto's method is the calendar: for any year from 1 on, a month in
   * 1..12 and a day from 0 on, `_getDayOfWeek` is the day's ordinal modulo
   * 7, and so lies in 0..6.
   */
  lemma DayOfWeekIsCalendar(d: int, m: int, y: int)
    requires 1 <= m <= 12 && y >= 1 && d >= 0
    ensures DayOfWeek(d, m, y) == DayNumber(d, m, y) % 7
    ensures 0 <= DayOfWeek(d, m, y) < 7
  {
    SakamotoSumNonNegative(d, m, y);
    var k := DayNumberShift(d, m, y);
    AddSevens(SakamotoSum(d, m, y), k);
  }

  /** Adding whole weeks leaves the remainder modulo 7 unchanged. */
  lemma AddSevens(a: int, k: int)
    ensures (a + 7 * k) % 7 == a % 7
  {
    var q, r := a / 7, a % 7;
    assert a == 7 * q + r && 0 <= r < 7;
    assert a + 7 * k == 7 * (q + k) + r;
  }

  /** 1 January 2000 was a Saturday. */
  lemma FirstOf2000IsSaturday()
    ensures DayOfWeek(1, 1, 2000) == 6
  {
  }

  // ---------------------------------------------------------------------
  // Date conversions (src/WatchyRTC.cpp:48-80)

  /** `RTC_t`: the chip found at start-up. */
  datatype RtcType = DS3231 | PCF8563

  /**
   * The date and time registers of the PCF8563 as the Rtc_Pcf8563 library's
   * `setDate`/`setTime` write them: each holds its field in binary-coded
   * decimal, and bit 7 of `month` is the century flag (clear for 20xx).
   */
  datatype PcfRegs = PcfRegs(day: Byte, weekday: Byte, month: Byte, year: Byte,
                             hour: Byte, minute: Byte, second: Byte)

  const YEAR_OFFSET_DS := 1970
  const YEAR_OFFSET_PCF := 2000

  /** An `int` stored into a `uint8_t`. */
  function ToByte(x: int): Byte
  {
    x % 0x100
  }

  /** What the DS3231 branch of `read` makes of what `rtc_ds.read` gives: the year moved from 1970 to 2000. */
  function DsRead(chip: Tm): Tm
  {
    chip.(Year := ToByte(chip.Year - 30))
  }

  /** What the DS3231 branch of `set` hands to `makeTime`: the year moved from 2000 to 1970, which `DsRead` undoes. */
  function DsWrite(tm: Tm): (chip: Tm)
    ensures DsRead(chip) == tm
  {
    tm.(Year := ToByte(tm.Year + YEAR_OFFSET_PCF - YEAR_OFFSET_DS))
  }

  /** The DS3231 year conversions are inverse to each other on every byte, in both orders. */
  lemma DsYearRoundTrip(tm: Tm, chip: Tm)
    ensures DsRead(DsWrite(tm)) == tm
    ensures DsWrite(DsRead(chip)) == chip
  {
  }

  /** What the DS3231 holds after `set(tm)`: `rtc_ds.set` stores `makeTime`'s seconds, and reads back `breakTime`'s fields. */
  function DsStore(tm: Tm): (chip: Tm)
    requires tm.Month <= 13
    ensures 1 <= chip.Month <= 12 && 1 <= chip.Day <= MonthLength(chip.Month - 1, Leap(chip.Year))
  {
    BreakTime(MakeTime(DsWrite(tm)))
  }

  /** Counted from 1970 or from year 1, the years before a year differ by the days before 1970. */
  lemma {:induction false} DaysBefore1970(epoch: int, y: nat)
    requires epoch == 1970
    ensures DaysBeforeYear(epoch + y) == DaysBeforeYear(epoch) + YearStart(y)
  {
    if y > 0 {
      DaysBefore1970(epoch, y - 1);
    }
  }

  /** The common-year month table, plus February's leap day from March on, is where each month starts. */
  lemma {:induction false} DaysBeforeMonthIsStart(m0: nat, leap: bool)
    requires m0 < 12
    ensures DaysBeforeMonth[m0] + (if m0 >= 2 && leap then 1 else 0) == MonthStart(m0, leap)
  {
    if m0 > 0 {
      DaysBeforeMonthIsStart(m0 - 1, leap);
    }
  }

  /** The calendar's day ordinal, from the days since 1 January 1970 that TimeLib counts. */
  lemma DayNumberSince1970(epoch: int, y: nat, m0: nat, d: int)
    requires epoch == 1970 && m0 < 12
    ensures DayNumber(d, m0 + 1, epoch + y) == 719162 + YearStart(y) + MonthStart(m0, Leap(y)) + d
  {
    DaysBefore1970(epoch, y);
    DaysBeforeYearClosed(epoch);
    DaysBeforeMonthIsStart(m0, Leap(y));
  }

  /** `breakTime`'s weekday is the calendar's: 1 January 1970, day 719163 of the calendar, was a Thursday. */
  lemma WeekdayIsCalendar(epoch: int, y: nat, m: int, d: int, year: int, days: int)
    requires epoch == 1970 && 1 <= m <= 12 && year == epoch + y
    requires days == YearStart(y) + MonthStart(m - 1, Leap(y)) + d - 1
    ensures Weekday(days) == DayNumber(d, m, year) % 7 + 1
  {
    DayNumberSince1970(epoch, y, m - 1, d);
    AddSevens(days + 4, 102737);
  }

  /**
   * A real date of the years 2000 to 2105, set on the DS3231, reads back
   * unchanged except for its weekday, which `breakTime` recomputes: it reads
   * back as the calendar's day of the week (1 for Sunday).
   */
  lemma DsRoundTrip(tm: Tm)
    requires 1 <= tm.Month <= 12 && 1 <= tm.Day <= MonthLength(tm.Month - 1, LeapYear(2000 + tm.Year))
    requires tm.Hour < 24 && tm.Minute < 60 && tm.Second < 60 && tm.Year <= 105
    ensures DsRead(DsStore(tm)) == tm.(Wday := DayNumber(tm.Day, tm.Month, tm.Year + YEAR_OFFSET_PCF) % 7 + 1)
  {
    DsStoreDate(tm);
    DsStoreWeekday(tm);
  }

  /** The DS3231 branch of `set` moves a year of this century to one TimeLib counts from 1970, with the same leap years. */
  lemma DsWriteShift(tm: Tm)
    requires tm.Year <= 105
    ensures DsWrite(tm) == tm.(Year := tm.Year + 30)
    ensures Leap(tm.Year + 30) == LeapYear(2000 + tm.Year)
  {
  }

  /** The date and time of a real date survive the DS3231's `makeTime` and `breakTime`. */
  lemma DsStoreDate(tm: Tm)
    requires 1 <= tm.Month <= 12 && 1 <= tm.Day <= MonthLength(tm.Month - 1, LeapYear(2000 + tm.Year))
    requires tm.Hour < 24 && tm.Minute < 60 && tm.Second < 60 && tm.Year <= 105
    ensures DsRead(DsStore(tm)) == tm.(Wday := DsStore(tm).Wday)
  {
    var w := DsWrite(tm);
    DsWriteShift(tm);
    BreakMakeTime(w);
    var r := DsStore(tm);
    assert r == w.(Wday := r.Wday);
    DsYearRoundTrip(tm, r);
    assert DsRead(r) == DsRead(w).(Wday := r.Wday);
  }

  /** The weekday the DS3231 holds for a real date is the calendar's. */
  lemma DsStoreWeekday(tm: Tm)
    requires 1 <= tm.Month <= 12 && 1 <= tm.Day <= MonthLength(tm.Month - 1, LeapYear(2000 + tm.Year))
    requires tm.Hour < 24 && tm.Minute < 60 && tm.Second < 60 && tm.Year <= 105
    ensures DsStore(tm).Wday == DayNumber(tm.Day, tm.Month, tm.Year + YEAR_OFFSET_PCF) % 7 + 1
  {
    var w := DsWrite(tm);
    DsWriteShift(tm);
    assert w.Month == tm.Month && w.Day == tm.Day && w.Year == tm.Year + 30;
    var days := YearStart(w.Year) + MonthStart(w.Month - 1, Leap(w.Year)) + w.Day - 1;
    WeekdayIsCalendar(1970, w.Year, w.Month, w.Day, tm.Year + YEAR_OFFSET_PCF, days);
    BreakMakeTime(w);
  }

  /**
   * A day past the end of its month, by no more than the next month's
   * length, set on the DS3231 reads back as a day of the next month: 31
   * February 2023 reads back as 3 March.
   */
  lemma DsDayPastMonthEnd(tm: Tm)
    requires 1 <= tm.Month <= 11 && tm.Year <= 105
    requires MonthLength(tm.Month - 1, LeapYear(2000 + tm.Year)) < tm.Day
    requires tm.Day <= MonthLength(tm.Month - 1, LeapYear(2000 + tm.Year)) + MonthLength(tm.Month, LeapYear(2000 + tm.Year))
    requires tm.Hour < 24 && tm.Minute < 60 && tm.Second < 60
    ensures DsRead(DsStore(tm)) == tm.(Wday := DsStore(tm).Wday, Month := tm.Month + 1,
                                      Day := tm.Day - MonthLength(tm.Month - 1, LeapYear(2000 + tm.Year)))
  {
    var w := DsWrite(tm);
    DsWriteShift(tm);
    DayPastMonthEnd(w);
    var r := DsStore(tm);
    DsYearRoundTrip(tm, r);
  }

  /** The library's `decToBcd`: the tens in the high nibble, the units in the low one, kept to a `byte`. */
  function DecToBcd(v: Byte): Byte
  {
    ToByte(v / 10 * 16 + v % 10)
  }

  /** The library's `bcdToDec`. */
  function BcdToDec(b: Byte): (v: Byte)
    ensures v <= 165
  {
    b / 16 * 10 + b % 16
  }

  /** `decToBcd` keeps the tens digit modulo 16 in the high nibble and the units digit in the low one. */
  lemma BcdWrap(v: Byte)
    ensures DecToBcd(v) == 16 * (v / 10 % 16) + v % 10
  {
    var t := v / 10;
    if t >= 16 {
      assert v / 10 * 16 + v % 10 == 0x100 + 16 * (t - 16) + v % 10;
    }
  }

  /** Masking a BCD byte `16 * h + u` to its low 5, 6 or 7 bits keeps the low 1, 2 or 3 bits of the high nibble. */
  lemma MaskNibble(h: int, u: int)
    requires 0 <= h < 16 && 0 <= u < 10
    ensures (16 * h + u) % 0x20 == 16 * (h % 2) + u
    ensures (16 * h + u) % 0x40 == 16 * (h % 4) + u
    ensures (16 * h + u) % 0x80 == 16 * (h % 8) + u
    ensures (16 * h + u) % 0x100 == 16 * h + u
  {
    assert 16 * h + u == 0x20 * (h / 2) + (16 * (h % 2) + u);
    assert 16 * h + u == 0x40 * (h / 4) + (16 * (h % 4) + u);
    assert 16 * h + u == 0x80 * (h / 8) + (16 * (h % 8) + u);
  }

  /** `bcdToDec` reads the high nibble as tens and the low one as units. */
  lemma Nibbles(h: int, u: int)
    requires 0 <= h < 16 && 0 <= u < 16
    ensures BcdToDec(16 * h + u) == 10 * h + u
  {
  }

  /**
   * A value survives `decToBcd`, the getter's mask `m - 1` of the register's
   * low bits, and `bcdToDec` exactly when its tens fit the masked high bits:
   * below 20 for the month, 40 for the day and hour, 80 for the minute and
   * second, and 160 for the unmasked year.
   */
  lemma {:induction false} MaskedBcd(v: Byte, m: int)
    requires m == 0x20 || m == 0x40 || m == 0x80 || m == 0x100
    ensures BcdToDec(DecToBcd(v) % m) == v <==> v < m / 16 * 10
  {
    var t, u := v / 10, v % 10;
    var h := t % 16;
    assert v == 10 * t + u;
    var low := if m == 0x20 then h % 2 else if m == 0x40 then h % 4 else if m == 0x80 then h % 8 else h;
    assert DecToBcd(v) % m == 16 * low + u by {
      BcdWrap(v);
      MaskNibble(h, u);
    }
    assert BcdToDec(DecToBcd(v) % m) == 10 * low + u by {
      Nibbles(low, u);
    }
    var fits := BcdToDec(DecToBcd(v) % m) == v <==> low == t;
    assert fits;
    TensFit(t);
    if m == 0x20 {
      assert low == t <==> v < 20;
    } else if m == 0x40 {
      assert low == t <==> v < 40;
    } else if m == 0x80 {
      assert low == t <==> v < 80;
    } else {
      assert low == t <==> v < 160;
    }
  }

  /** The tens digit, kept to the nibble and then to the mask's 1, 2, 3 or 4 bits, is unchanged exactly when it fits them. */
  lemma TensFit(t: int)
    requires 0 <= t
    ensures t % 16 % 2 == t <==> t < 2
    ensures t % 16 % 4 == t <==> t < 4
    ensures t % 16 % 8 == t <==> t < 8
    ensures t % 16 == t <==> t < 16
  {
  }

  /** A month of 1..12 in BCD leaves the century bit clear and is never the power-on month of 0. */
  lemma MonthBcd(month: Byte)
    requires 1 <= month <= 12
    ensures DecToBcd(month) % 0x80 == DecToBcd(month) && DecToBcd(month) % 0x20 != 0
  {
    BcdWrap(month);
    var b := DecToBcd(month);
    assert 1 <= b < 0x20 by {
      if month < 10 {
        assert b == month;
      } else {
        assert b == month + 6;
      }
    }
    SmallMod(b);
  }

  lemma SmallMod(b: int)
    requires 0 <= b < 0x20
    ensures b % 0x80 == b && b % 0x20 == b
  {
  }

  /** A weekday of 0..6 survives `decToBcd`, the mask 0x07 and `bcdToDec`. */
  lemma WeekdayBcd(w: Byte)
    requires w < 7
    ensures BcdToDec(DecToBcd(w) % 8) == w
  {
  }

  /**
   * The PCF8563 branch of `read`: each getter masks its register's unused
   * bits and decodes the BCD; a month of 0 (the chip's power-on value)
   * reads as January 2021, so the month read is never 0; and the weekday,
   * 0 for Sunday, is moved to TimeLib's 1 for Sunday.
   */
  function PcfRead(r: PcfRegs): (tm: Tm)
    ensures r.month % 0x20 == 0 ==> tm.Month == 1 && tm.Year == 21
    ensures 1 <= tm.Month && tm.Wday == BcdToDec(r.weekday % 8) + 1
  {
    var month := BcdToDec(r.month % 0x20);
    Tm(BcdToDec(r.second % 0x80), BcdToDec(r.minute % 0x80), BcdToDec(r.hour % 0x40),
       BcdToDec(r.weekday % 8) + 1, BcdToDec(r.day % 0x40),
       if month == 0 then 1 else month, if month == 0 then 21 else BcdToDec(r.year))
  }

  /**
   * The registers the PCF8563 branch of `set` writes: the date in BCD with
   * the century flag clear, and the weekday computed from the date, which
   * the weekday register holds as the calendar's 0..6 (0 for Sunday).
   */
  function PcfWrite(tm: Tm): (r: PcfRegs)
    requires 1 <= tm.Month <= 12
    ensures r.month < 0x80 && r.month % 0x20 != 0
    ensures BcdToDec(r.weekday % 8) == DayNumber(tm.Day, tm.Month, tm.Year + YEAR_OFFSET_PCF) % 7
  {
    DayOfWeekIsCalendar(tm.Day, tm.Month, tm.Year + YEAR_OFFSET_PCF);
    SmallByte(DayOfWeek(tm.Day, tm.Month, tm.Year + YEAR_OFFSET_PCF));
    WeekdayBcd(DayOfWeek(tm.Day, tm.Month, tm.Year + YEAR_OFFSET_PCF));
    MonthBcd(tm.Month);
    PcfRegs(DecToBcd(tm.Day), DecToBcd(ToByte(DayOfWeek(tm.Day, tm.Month, tm.Year + YEAR_OFFSET_PCF))),
            DecToBcd(tm.Month) % 0x80, DecToBcd(tm.Year), DecToBcd(tm.Hour), DecToBcd(tm.Minute), DecToBcd(tm.Second))
  }

  /**
   * A time written to the PCF8563 reads back unchanged, except for its
   * weekday, which reads back as the calendar's day of the week (1 for
   * Sunday), exactly when every field fits its masked BCD register: second
   * and minute below 80, hour and day below 40, year below 160.  Beyond
   * those the tens digit loses its high bits: minute 99 reads back as 19.
   */
  lemma {:induction false} PcfRoundTrip(tm: Tm)
    requires 1 <= tm.Month <= 12
    ensures PcfRead(PcfWrite(tm)) == tm.(Wday := DayNumber(tm.Day, tm.Month, tm.Year + YEAR_OFFSET_PCF) % 7 + 1)
            <==> tm.Second < 80 && tm.Minute < 80 && tm.Hour < 40 && tm.Day < 40 && tm.Year < 160
  {
    var r := PcfWrite(tm);
    PcfWriteRegs(tm, r);
    PcfReadRegs(r);
    MaskedBcd(tm.Month, 0x20);
    FieldsRoundTrip(tm, PcfRead(r), DayNumber(tm.Day, tm.Month, tm.Year + YEAR_OFFSET_PCF) % 7 + 1);
  }

  /** A time whose fields went through their masked BCD registers equals the original exactly when each fits. */
  lemma FieldsRoundTrip(tm: Tm, back: Tm, wday: int)
    requires back.Month == tm.Month && back.Wday == wday
    requires back.Year == BcdToDec(DecToBcd(tm.Year) % 0x100) && back.Day == BcdToDec(DecToBcd(tm.Day) % 0x40)
    requires back.Hour == BcdToDec(DecToBcd(tm.Hour) % 0x40) && back.Minute == BcdToDec(DecToBcd(tm.Minute) % 0x80)
    requires back.Second == BcdToDec(DecToBcd(tm.Second) % 0x80)
    ensures back == tm.(Wday := wday) <==> tm.Second < 80 && tm.Minute < 80 && tm.Hour < 40 && tm.Day < 40 && tm.Year < 160
  {
    assert back.Second == tm.Second <==> tm.Second < 80 by { MaskedBcd(tm.Second, 0x80); }
    assert back.Minute == tm.Minute <==> tm.Minute < 80 by { MaskedBcd(tm.Minute, 0x80); }
    assert back.Hour == tm.Hour <==> tm.Hour < 40 by { MaskedBcd(tm.Hour, 0x40); }
    assert back.Day == tm.Day <==> tm.Day < 40 by { MaskedBcd(tm.Day, 0x40); }
    assert back.Year == tm.Year <==> tm.Year < 160 by { MaskedBcd(tm.Year, 0x100); }
  }

  /** The registers `set` writes, field by field. */
  lemma PcfWriteRegs(tm: Tm, r: PcfRegs)
    requires 1 <= tm.Month <= 12 && r == PcfWrite(tm)
    ensures r.month == DecToBcd(tm.Month) && r.year == DecToBcd(tm.Year) && r.day == DecToBcd(tm.Day)
    ensures r.hour == DecToBcd(tm.Hour) && r.minute == DecToBcd(tm.Minute) && r.second == DecToBcd(tm.Second)
  {
    MonthBcd(tm.Month);
  }

  /** What `read` makes of registers holding a month other than the power-on 0. */
  lemma PcfReadRegs(r: PcfRegs)
    requires r.month % 0x20 != 0
    ensures PcfRead(r).Month == BcdToDec(r.month % 0x20) && PcfRead(r).Year == BcdToDec(r.year % 0x100)
    ensures PcfRead(r).Day == BcdToDec(r.day % 0x40) && PcfRead(r).Hour == BcdToDec(r.hour % 0x40)
    ensures PcfRead(r).Minute == BcdToDec(r.minute % 0x80) && PcfRead(r).Second == BcdToDec(r.second % 0x80)
  {
    ByteMod(r.year);
    assert BcdToDec(r.month % 0x20) != 0;
  }

  lemma ByteMod(b: Byte)
    ensures b % 0x100 == b
  {
  }

  /** Minute 99 reads back as 19 and day 45 as 5: the masks drop the tens' high bit. */
  lemma PcfMaskExample()
    ensures PcfRead(PcfWrite(Tm(0, 99, 0, 0, 45, 1, 24))).Minute == 19
    ensures PcfRead(PcfWrite(Tm(0, 99, 0, 0, 45, 1, 24))).Day == 5
  {
    assert DecToBcd(99) == 0x99 by { assert 99 / 10 * 16 + 99 % 10 == 0x99; }
    assert DecToBcd(45) == 0x45 by { assert 45 / 10 * 16 + 45 % 10 == 0x45; }
    assert BcdToDec(0x99 % 0x80) == 19 by { assert 0x99 % 0x80 == 0x19; }
    assert BcdToDec(0x45 % 0x40) == 5 by { assert 0x45 % 0x40 == 5; }
    var tm := Tm(0, 99, 0, 0, 45, 1, 24);
    var r := PcfWrite(tm);
    PcfWriteRegs(tm, r);
    PcfReadRegs(r);
  }

  lemma SmallByte(x: int)
    requires 0 <= x < 0x100
    ensures ToByte(x) == x
  {
  }

  // ---------------------------------------------------------------------
  // The date string of `config` (src/WatchyRTC.cpp:149-181)

  predicate IsDigit(c: char)
  {
    '0' <= c <= '9'
  }

  /** The value of the decimal digits that start `s`, up to the first non-digit. */
  function LeadingDigits(s: string): nat
  {
    var n := DigitRun(s);
    DigitsValue(s[..n])
  }

  function DigitRun(s: string): (n: nat)
    ensures n <= |s|
    decreases |s|
  {
    if s != [] && IsDigit(s[0]) then 1 + DigitRun(s[1..]) else 0
  }

  function DigitsValue(s: string): nat
    decreases |s|
  {
    if s == [] then 0
    else
      var c := s[|s| - 1];
      DigitsValue(s[..|s| - 1]) * 10 + (if IsDigit(c) then c as int - '0' as int else 0)
  }

  /** `String::toInt`, that is `atol`: leading white space, an optional sign, then decimal digits. */
  function ToInt(s: string): int
    decreases |s|
  {
    if s != [] && s[0] in " \t\n\U{B}\U{C}\r" then ToInt(s[1..])
    else if s != [] && s[0] == '-' then -(LeadingDigits(s[1..]) as int)
    else if s != [] && s[0] == '+' then LeadingDigits(s[1..])
    else LeadingDigits(s)
  }

  /** The decimal numeral of `n`, without leading zeros. */
  function Decimal(n: nat): (s: string)
    ensures |s| >= 1 && forall k :: 0 <= k < |s| ==> IsDigit(s[k])
    decreases n
  {
    if n < 10 then [('0' as int + n) as char] else Decimal(n / 10) + [('0' as int + n % 10) as char]
  }

  /** `toInt` reads back every number written in decimal, and stops at the first non-digit. */
  lemma ToIntOfDecimal(n: nat, rest: string)
    requires rest == [] || !IsDigit(rest[0])
    ensures ToInt(Decimal(n) + rest) == n
  {
    var s := Decimal(n) + rest;
    DigitRunOfDigits(Decimal(n), rest);
    assert s[..|Decimal(n)|] == Decimal(n);
    DigitsValueOfDecimal(n);
  }

  lemma {:induction false} DigitRunOfDigits(d: string, rest: string)
    requires forall k :: 0 <= k < |d| ==> IsDigit(d[k])
    requires rest == [] || !IsDigit(rest[0])
    ensures DigitRun(d + rest) == |d|
    decreases |d|
  {
    if d != [] {
      assert (d + rest)[1..] == d[1..] + rest;
      DigitRunOfDigits(d[1..], rest);
    } else {
      assert d + rest == rest;
    }
  }

  lemma {:induction false} DigitsValueOfDecimal(n: nat)
    ensures DigitsValue(Decimal(n)) == n
    decreases n
  {
    var s := Decimal(n);
    if n >= 10 {
      assert s[..|s| - 1] == Decimal(n / 10);
      DigitsValueOfDecimal(n / 10);
    } else {
      assert s[..0] == [];
    }
  }

  /** `toInt` as `atol`: leading blanks are skipped and a minus sign negates the number after it. */
  lemma {:induction false} ToIntOfNegative(n: nat, blanks: string, rest: string)
    requires forall k :: 0 <= k < |blanks| ==> blanks[k] == ' '
    requires rest == [] || !IsDigit(rest[0])
    ensures ToInt(blanks + (['-'] + (Decimal(n) + rest))) == -(n as int)
    decreases |blanks|
  {
    var t := ['-'] + (Decimal(n) + rest);
    if blanks != [] {
      assert (blanks + t)[0] == ' ' && (blanks + t)[1..] == blanks[1..] + t;
      ToIntOfNegative(n, blanks[1..], rest);
    } else {
      assert blanks + t == t;
      NegativeNumber(n, rest, t);
    }
  }

  lemma NegativeNumber(n: nat, rest: string, t: string)
    requires rest == [] || !IsDigit(rest[0])
    requires t == ['-'] + (Decimal(n) + rest)
    ensures ToInt(t) == -(n as int)
  {
    assert t[0] == '-' && t[1..] == Decimal(n) + rest;
    DigitRunOfDigits(Decimal(n), rest);
    assert t[1..][..|Decimal(n)|] == Decimal(n);
    DigitsValueOfDecimal(n);
  }

  /** The `k`-th number of a "YYYY:MM:DD:hh:mm:ss" string. */
  function DateField(datetime: string, k: nat): int
  {
    ToInt(FieldAt(datetime, ':', k))
  }

  /** The time `_DSConfig` hands to `makeTime`; its weekday is never set, and `makeTime` does not read it. */
  function DsConfigTime(datetime: string): Tm
  {
    Tm(ToByte(DateField(datetime, 5)), ToByte(DateField(datetime, 4)), ToByte(DateField(datetime, 3)), 0,
       ToByte(DateField(datetime, 2)), ToByte(DateField(datetime, 1)), ToByte(DateField(datetime, 0) - YEAR_OFFSET_DS))
  }

  /** The month of a date string is one `_getDayOfWeek` can index with. */
  predicate MonthIndexable(datetime: string)
  {
    1 <= DateField(datetime, 1) <= 12
  }

  /** The registers `_PCFConfig` writes: the weekday of the full year, the year as an offset from 2000. */
  function PcfConfigRegs(datetime: string): PcfRegs
    requires MonthIndexable(datetime)
  {
    var day := DateField(datetime, 2);
    var month := DateField(datetime, 1);
    var year := DateField(datetime, 0);
    PcfRegs(DecToBcd(ToByte(day)), DecToBcd(ToByte(DayOfWeek(day, month, year))), DecToBcd(ToByte(month)) % 0x80,
            DecToBcd(ToByte(year - YEAR_OFFSET_PCF)), DecToBcd(ToByte(DateField(datetime, 3))),
            DecToBcd(ToByte(DateField(datetime, 4))), DecToBcd(ToByte(DateField(datetime, 5))))
  }

  // ---------------------------------------------------------------------
  // Refresh modes (src/WatchyRTC.cpp:92-139)

  /** `RTC_REFRESH_t`. */
  datatype Refresh = NONE | SEC | MIN | FAST

  /** The modes in which the chip wakes the watch: every second or every minute. */
  predicate Ticks(r: Refresh)
  {
    r == SEC || r == MIN
  }

  /** The DS3231 alarm settings `setRefresh` uses. */
  datatype DsAlarm = ALM1_EVERY_SECOND | ALM2_EVERY_MINUTE

  /** The PCF8563 timer sources `setRefresh` uses. */
  datatype PcfTimer = TMR_1Hz | TMR_1MIN

  /** The wake-source, alarm and timer programming `setRefresh` and `config` issue, in order. */
  datatype Cmd =
    | Ext0Enable                              // esp_sleep_enable_ext0_wakeup(RTC_PIN, 0)
    | Ext0Disable                             // esp_sleep_disable_wakeup_source(ESP_SLEEP_WAKEUP_EXT0)
    | DsSetAlarm(alarm: DsAlarm)              // rtc_ds.setAlarm(...)
    | DsAlarmInterrupt(n: nat, on: bool)      // rtc_ds.alarmInterrupt(n, on)
    | DsSquareWaveOff                         // rtc_ds.squareWave(SQWAVE_NONE)
    | PcfSetTimer(source: PcfTimer)           // rtc_pcf.setTimer(1, source, true)
    | PcfClearTimer                           // rtc_pcf.clearTimer()
    | PcfClearAlarm                           // rtc_pcf.clearAlarm()

  /** The wake-source part of `setRefresh(r)` from mode `prev`, which runs even when the mode does not change. */
  function WakeCmds(prev: Refresh, r: Refresh): seq<Cmd>
  {
    if Ticks(r) then [Ext0Enable] else if Ticks(prev) then [Ext0Disable] else []
  }

  /** The chip part of `setRefresh(r)` from mode `prev`, for a change of mode. */
  function ChipCmds(t: RtcType, prev: Refresh, r: Refresh): seq<Cmd>
  {
    match t
    case DS3231 =>
      (match r
       case SEC => [DsSetAlarm(ALM1_EVERY_SECOND), DsAlarmInterrupt(1, true)]
                   + (if prev == MIN then [DsAlarmInterrupt(2, false)] else [])
       case MIN => [DsSetAlarm(ALM2_EVERY_MINUTE), DsAlarmInterrupt(2, true)]
                   + (if prev == SEC then [DsAlarmInterrupt(1, false)] else [])
       case _ => [DsAlarmInterrupt(1, false), DsAlarmInterrupt(2, false)])
    case PCF8563 =>
      (match r
       case SEC => [PcfSetTimer(TMR_1Hz)]
       case MIN => [PcfSetTimer(TMR_1MIN)]
       case _ => [PcfClearTimer])
  }

  /** Everything `setRefresh(r)` issues from mode `prev`. */
  function RefreshCmds(t: RtcType, prev: Refresh, r: Refresh): seq<Cmd>
  {
    WakeCmds(prev, r) + (if prev == r then [] else ChipCmds(t, prev, r))
  }

  /**
   * Setting the mode that is already set reprograms no alarm and no timer:
   * at most the EXT0 wake source is enabled again.
   */
  lemma SameRefreshReprogramsNothing(t: RtcType, r: Refresh)
    ensures RefreshCmds(t, r, r) == if Ticks(r) then [Ext0Enable] else []
  {
  }

  /**
   * The EXT0 wake source is enabled exactly when the new mode ticks, and
   * disabled exactly when a ticking mode is left for one that does not.
   */
  lemma WakeSourceFollowsMode(t: RtcType, prev: Refresh, r: Refresh)
    ensures Ext0Enable in RefreshCmds(t, prev, r) <==> Ticks(r)
    ensures Ext0Disable in RefreshCmds(t, prev, r) <==> Ticks(prev) && !Ticks(r)
  {
    var c := RefreshCmds(t, prev, r);
    if Ticks(r) {
      assert c[0] == Ext0Enable;
    } else if Ticks(prev) {
      assert c[0] == Ext0Disable;
    }
  }

  /** The retained driver state and the chip state it programs. */
  class WatchyRtc {
    /** `rtcType`, found by the chip probe of `init`. */
    const rtcType: RtcType
    /** The static `_refresh`. */
    var refresh: Refresh
    /** Whether EXT0 (the clock chip's interrupt pin) is a wake source. */
    var ext0Wake: bool
    /** The DS3231's alarm-1 and alarm-2 interrupt enables. */
    var alarm1Int: bool
    var alarm2Int: bool
    /** The PCF8563's countdown timer, if running. */
    var timer: Option<PcfTimer>
    /** The time the DS3231 holds. */
    var dsChip: Tm
    /** The PCF8563's date and time registers. */
    var pcfRegs: PcfRegs
    /** Every programming command issued, in order. */
    var cmds: seq<Cmd>

    /**
     * The wake and alarm configuration is a function of the refresh mode:
     * EXT0 wakes the watch exactly in the ticking modes, and the active
     * chip's interrupt or timer matches the mode.
     */
    predicate Valid()
      reads this
    {
      ext0Wake == Ticks(refresh) &&
      (rtcType == DS3231 ==> alarm1Int == (refresh == SEC) && alarm2Int == (refresh == MIN)) &&
      (rtcType == PCF8563 ==> timer == (if refresh == SEC then Some(TMR_1Hz) else if refresh == MIN then Some(TMR_1MIN) else None))
    }

    /** The driver after a cold boot: `_refresh` is `RTC_REFRESH_NONE` and nothing is armed. */
    constructor (t: RtcType, dsChip: Tm, pcfRegs: PcfRegs)
      ensures Valid() && rtcType == t && refresh == NONE && cmds == []
      ensures this.dsChip == dsChip && this.pcfRegs == pcfRegs
    {
      rtcType := t;
      refresh := NONE;
      ext0Wake := false;
      alarm1Int := false;
      alarm2Int := false;
      timer := None;
      this.dsChip := dsChip;
      this.pcfRegs := pcfRegs;
      cmds := [];
    }

    /**
     * `setRefresh(r)` (src/WatchyRTC.cpp:92-139): afterwards the mode is
     * `r` and the wake and alarm configuration matches it again.
     */
    method SetRefresh(r: Refresh)
      requires Valid()
      modifies this
      ensures Valid() && refresh == r
      ensures cmds == old(cmds) + RefreshCmds(rtcType, old(refresh), r)
      ensures dsChip == old(dsChip) && pcfRegs == old(pcfRegs)
      ensures rtcType == DS3231 ==> timer == old(timer)
      ensures rtcType == PCF8563 ==> alarm1Int == old(alarm1Int) && alarm2Int == old(alarm2Int)
    {
      ghost var before := cmds;
      SetWakeSource(r);
      if refresh == r {
        assert RefreshCmds(rtcType, refresh, r) == WakeCmds(refresh, r);
        return;
      }
      ghost var woken := cmds;
      if rtcType == DS3231 {
        ProgramDs(r);
      } else {
        ProgramPcf(r);
      }
      assert cmds == woken + ChipCmds(rtcType, refresh, r);
      assert before + WakeCmds(refresh, r) + ChipCmds(rtcType, refresh, r) == before + RefreshCmds(rtcType, refresh, r);
      refresh := r;
    }

    /** The EXT0 part of `setRefresh(r)`: enabled for a ticking mode, disabled when a ticking mode is left. */
    method SetWakeSource(r: Refresh)
      requires ext0Wake == Ticks(refresh)
      modifies this
      ensures ext0Wake == Ticks(r)
      ensures cmds == old(cmds) + WakeCmds(refresh, r)
      ensures refresh == old(refresh) && timer == old(timer) && alarm1Int == old(alarm1Int) && alarm2Int == old(alarm2Int)
      ensures dsChip == old(dsChip) && pcfRegs == old(pcfRegs)
    {
      if r == SEC || r == MIN {
        ext0Wake := true;
        cmds := cmds + [Ext0Enable];
      } else if refresh == SEC || refresh == MIN {
        ext0Wake := false;
        cmds := cmds + [Ext0Disable];
      }
    }

    /** The DS3231 part of a change of mode: the alarm interrupts move from the old mode to `r`. */
    method ProgramDs(r: Refresh)
      requires rtcType == DS3231 && refresh != r
      requires alarm1Int == (refresh == SEC) && alarm2Int == (refresh == MIN)
      modifies this
      ensures alarm1Int == (r == SEC) && alarm2Int == (r == MIN)
      ensures cmds == old(cmds) + ChipCmds(DS3231, refresh, r)
      ensures refresh == old(refresh) && ext0Wake == old(ext0Wake) && timer == old(timer)
      ensures dsChip == old(dsChip) && pcfRegs == old(pcfRegs)
    {
      match r
      case SEC =>
        cmds := cmds + [DsSetAlarm(ALM1_EVERY_SECOND), DsAlarmInterrupt(1, true)];
        alarm1Int := true;
        if refresh == MIN {
          cmds := cmds + [DsAlarmInterrupt(2, false)];
          alarm2Int := false;
        }
      case MIN =>
        cmds := cmds + [DsSetAlarm(ALM2_EVERY_MINUTE), DsAlarmInterrupt(2, true)];
        alarm2Int := true;
        if refresh == SEC {
          cmds := cmds + [DsAlarmInterrupt(1, false)];
          alarm1Int := false;
        }
      case _ =>
        cmds := cmds + [DsAlarmInterrupt(1, false), DsAlarmInterrupt(2, false)];
        alarm1Int := false;
        alarm2Int := false;
    }

    /** The PCF8563 part of a change of mode: the countdown timer follows `r`. */
    method ProgramPcf(r: Refresh)
      requires rtcType == PCF8563
      modifies this
      ensures timer == (if r == SEC then Some(TMR_1Hz) else if r == MIN then Some(TMR_1MIN) else None)
      ensures cmds == old(cmds) + ChipCmds(PCF8563, refresh, r)
      ensures refresh == old(refresh) && ext0Wake == old(ext0Wake)
      ensures alarm1Int == old(alarm1Int) && alarm2Int == old(alarm2Int)
      ensures dsChip == old(dsChip) && pcfRegs == old(pcfRegs)
    {
      match r
      case SEC =>
        cmds := cmds + [PcfSetTimer(TMR_1Hz)];
        timer := Some(TMR_1Hz);
      case MIN =>
        cmds := cmds + [PcfSetTimer(TMR_1MIN)];
        timer := Some(TMR_1MIN);
      case _ =>
        cmds := cmds + [PcfClearTimer];
        timer := None;
    }

    /**
     * `config(datetime)` (src/WatchyRTC.cpp:31-38, 149-181): a non-empty
     * date string sets the chip's time; the DS3231 also has its square-wave
     * output switched off; either way the mode ends as every minute.
     */
    method Config(datetime: string)
      requires Valid()
      requires rtcType == PCF8563 && datetime != "" ==> MonthIndexable(datetime)
      requires rtcType == DS3231 && datetime != "" ==> DsConfigTime(datetime).Month <= 13
      modifies this
      ensures Valid() && refresh == MIN && ext0Wake
      ensures dsChip == if rtcType == DS3231 && datetime != "" then BreakTime(MakeTime(DsConfigTime(datetime))) else old(dsChip)
      ensures pcfRegs == if rtcType == PCF8563 && datetime != "" then PcfConfigRegs(datetime) else old(pcfRegs)
      ensures cmds == old(cmds) + (if rtcType == DS3231 then [DsSquareWaveOff] else [])
                      + RefreshCmds(rtcType, old(refresh), MIN)
    {
      if rtcType == DS3231 {
        if datetime != "" {
          dsChip := BreakTime(MakeTime(DsConfigTime(datetime)));
        }
        cmds := cmds + [DsSquareWaveOff];
      } else if datetime != "" {
        pcfRegs := PcfConfigRegs(datetime);
      }
      SetRefresh(MIN);
    }

    /** `read(tm)` (src/WatchyRTC.cpp:48-66). */
    method Read() returns (tm: Tm)
      ensures tm == if rtcType == DS3231 then DsRead(dsChip) else PcfRead(pcfRegs)
    {
      if rtcType == DS3231 {
        tm := dsChip;
        tm := tm.(Year := ToByte(tm.Year - 30));
      } else {
        var month := BcdToDec(pcfRegs.month % 0x20);
        var year: Byte := 21;
        if month == 0 {
          month := 1;
          year := 21;
        } else {
          year := BcdToDec(pcfRegs.year);
        }
        var day := BcdToDec(pcfRegs.day % 0x40);
        var wday := BcdToDec(pcfRegs.weekday % 8) + 1;
        var hour := BcdToDec(pcfRegs.hour % 0x40);
        var minute := BcdToDec(pcfRegs.minute % 0x80);
        var second := BcdToDec(pcfRegs.second % 0x80);
        tm := Tm(second, minute, hour, wday, day, month, year);
      }
    }

    /**
     * `set(tm)` (src/WatchyRTC.cpp:68-80): a real date is read back by
     * `read` unchanged except for its weekday, which both chips report as the
     * calendar's (`DsRoundTrip`, `PcfRoundTrip`).  The PCF8563 branch also
     * clears the alarm flag.
     */
    method Set(tm: Tm)
      requires rtcType == PCF8563 ==> 1 <= tm.Month <= 12
      requires rtcType == DS3231 ==> tm.Month <= 13
      modifies this
      ensures rtcType == DS3231 ==> dsChip == DsStore(tm) && pcfRegs == old(pcfRegs) && cmds == old(cmds)
      ensures rtcType == PCF8563 ==> pcfRegs == PcfWrite(tm) && dsChip == old(dsChip) && cmds == old(cmds) + [PcfClearAlarm]
      ensures refresh == old(refresh) && ext0Wake == old(ext0Wake) && timer == old(timer)
      ensures alarm1Int == old(alarm1Int) && alarm2Int == old(alarm2Int)
    {
      if rtcType == DS3231 {
        var t := MakeTime(DsWrite(tm));
        dsChip := BreakTime(t);
      } else {
        var wday := ToByte(DayOfWeek(tm.Day, tm.Month, tm.Year + YEAR_OFFSET_PCF));
        pcfRegs := pcfRegs.(day := DecToBcd(tm.Day), weekday := DecToBcd(wday), month := DecToBcd(tm.Month) % 0x80,
                            year := DecToBcd(tm.Year));
        pcfRegs := pcfRegs.(hour := DecToBcd(tm.Hour), minute := DecToBcd(tm.Minute), second := DecToBcd(tm.Second));
        cmds := cmds + [PcfClearAlarm];
      }
    }

    /**
     * `temperature()` (src/WatchyRTC.cpp:141-147): the DS3231's `int16_t`
     * reading in quarter degrees, returned as a `uint8_t` (so modulo 256),
     * and 255 on the PCF8563, which has no sensor.
     */
    method Temperature(dsReading: int) returns (t: Byte)
      requires -0x8000 <= dsReading < 0x8000
      ensures rtcType == DS3231 ==> t == dsReading % 0x100 && (0 <= dsReading < 0x100 ==> t == dsReading)
      ensures rtcType == PCF8563 ==> t == 255
    {
      if rtcType == DS3231 {
        t := ToByte(dsReading);
      } else {
        t := 255;
      }
    }
  }
}
