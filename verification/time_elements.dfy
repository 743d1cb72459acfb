/**
 * The broken-down time record `tmElements_t` of the TimeLib library and the
 * two helpers of src/Watchy.cpp that check and repair it after it has been
 * read from the real-time clock: `validTime` and `fixTime`.
 */
module TimeElements {

  /** An unsigned 8-bit value, the width of every `tmElements_t` field. */
  type Byte = x: int | 0 <= x < 0x100

  /** `tmElements_t`: `Year` counts years from 1970. */
  datatype Tm = Tm(Second: Byte, Minute: Byte, Hour: Byte, Wday: Byte, Day: Byte, Month: Byte, Year: Byte)

  /** `validTime`: the early returns of src/Watchy.cpp:114-134, in order. */
  predicate ValidTime(t: Tm)
  {
    if t.Second >= 60 then false
    else if t.Minute >= 60 then false
    else if t.Hour >= 24 then false
    else if t.Month > 12 then false
    else if t.Day > 31 then false
    else if t.Wday > 7 then false
    else true
  }

  /** The checked fields, in the order `validTime` tests them, and their exclusive limits. */
  function Checked(t: Tm): seq<int>
  {
    [t.Second, t.Minute, t.Hour, t.Month, t.Day, t.Wday]
  }

  const Limits: seq<int> := [60, 60, 24, 13, 32, 8]

  /**
   * `validTime` holds exactly when every checked field is below its limit:
   * it only bounds fields from above, so a day, month or weekday of 0 passes.
   */
  lemma ValidTimeIsUpperBounds(t: Tm)
    ensures ValidTime(t) <==> forall k :: 0 <= k < 6 ==> Checked(t)[k] < Limits[k]
  {
    if t.Second >= 60 { assert Checked(t)[0] >= Limits[0]; }
    else if t.Minute >= 60 { assert Checked(t)[1] >= Limits[1]; }
    else if t.Hour >= 24 { assert Checked(t)[2] >= Limits[2]; }
    else if t.Month > 12 { assert Checked(t)[3] >= Limits[3]; }
    else if t.Day > 31 { assert Checked(t)[4] >= Limits[4]; }
    else if t.Wday > 7 { assert Checked(t)[5] >= Limits[5]; }
  }

  /** There is no lower-bound check: the all-zero record, with day and month 0, is valid. */
  lemma ZeroDateIsValid(year: Byte)
    ensures ValidTime(Tm(0, 0, 0, 0, 0, 0, year))
    ensures !ValidTime(Tm(0, 0, 0, 0, 32, 1, year))
  {
  }

  /**
   * The field repair of `fixTime`: every field that `validTime` rejects is
   * reset (seconds, minutes and hours to 0; month, day and weekday to 1);
   * the year is never touched.
   */
  function Repair(t: Tm): (r: Tm)
    ensures ValidTime(r)
    ensures r.Year == t.Year
  {
    Tm(if t.Second >= 60 then 0 else t.Second,
       if t.Minute >= 60 then 0 else t.Minute,
       if t.Hour >= 24 then 0 else t.Hour,
       if t.Wday > 7 then 1 else t.Wday,
       if t.Day > 31 then 1 else t.Day,
       if t.Month > 12 then 1 else t.Month,
       t.Year)
  }

  /** A field that was in range survives the repair. */
  lemma RepairKeepsInRange(t: Tm, k: nat)
    requires k < 6 && Checked(t)[k] < Limits[k]
    ensures Checked(Repair(t))[k] == Checked(t)[k]
  {
  }

  /** The repair changes nothing on a valid record, so applying it twice is applying it once. */
  lemma RepairIdempotent(t: Tm)
    ensures ValidTime(t) ==> Repair(t) == t
    ensures Repair(Repair(t)) == Repair(t)
  {
  }

  /**
   * `fixTime(t)` (src/Watchy.cpp:136-156) repairs `t` in place and then writes
   * it to the real-time clock; `writeOk` is whether `RTC.write` returned 0,
   * which is also the result.
   */
  method FixTime(t: Tm, writeOk: bool) returns (fixed: Tm, ok: bool)
    ensures fixed == Repair(t) && ok == writeOk
    ensures ValidTime(fixed)
  {
    fixed := t;
    if fixed.Second >= 60 {
      fixed := fixed.(Second := 0);
    }
    if fixed.Minute >= 60 {
      fixed := fixed.(Minute := 0);
    }
    if fixed.Hour >= 24 {
      fixed := fixed.(Hour := 0);
    }
    if fixed.Month > 12 {
      fixed := fixed.(Month := 1);
    }
    if fixed.Day > 31 {
      fixed := fixed.(Day := 1);
    }
    if fixed.Wday > 7 {
      fixed := fixed.(Wday := 1);
    }
    ok := writeOk;
  }
}
