/**
 * The set-time screen of src/Screens/SetTimeScreen.cpp: five wrap-around
 * counters (hour, minute, year, month, day) edited with up and down, a field
 * cursor `setIndex` moved with menu and back, and a commit on menu at the
 * last field.
 *
 * `decrMin` and `incrMax` update their `val` through a reference; here they
 * are the functions `Decremented` and `Incremented` of the old value.  The
 * statics `setIndex` and `blink`, the global `struct tm tm` and the
 * `int16_t` members are fields of one `SetTimeScreen` object that lives
 * across deep sleep.  Drawing on the display is not part of this model.
 */
module SetTime {

  import opened Watchy
  import opened SyncTime

  /** The field indices. */
  const SET_HOUR := 0
  const SET_MINUTE := 1
  const SET_YEAR := 2
  const SET_MONTH := 3
  const SET_DAY := 4

  /** The inclusive range of a field. */
  datatype Range = Range(min: int, max: int)

  /** The `fields` table, in field order: hour, minute, year (since 1900), month, day. */
  const Ranges: seq<Range> := [Range(0, 23), Range(0, 59), Range(120, 199), Range(1, 12), Range(1, 31)]

  /** `numFields`. */
  const NUM_FIELDS := 5

  /** The part of `struct tm` that `show` fills in and `mktime` reads. */
  datatype CalendarTm = CalendarTm(sec: int, min: int, hour: int, mday: int, mon: int, year: int)

  // ---------------------------------------------------------------------
  // The counters (src/Screens/SetTimeScreen.cpp:28-38)

  /** `decrMin(val, min, max)`: one down, and from `min` (or below) round to `max`. */
  function Decremented(val: int, min: int, max: int): (r: int)
    ensures min <= val <= max ==> min <= r <= max
    ensures val > min ==> r == val - 1
    ensures val <= min ==> r == max
  {
    if val <= min then max else val - 1
  }

  /** `incrMax(val, min, max)`: one up, and from `max` (or above) round to `min`. */
  function Incremented(val: int, min: int, max: int): (r: int)
    ensures min <= val <= max ==> min <= r <= max
    ensures val < max ==> r == val + 1
    ensures val >= max ==> r == min
  {
    if val >= max then min else val + 1
  }

  /** Within the range, up and down undo each other. */
  lemma CountersInverse(val: int, min: int, max: int)
    requires min <= val <= max
    ensures Incremented(Decremented(val, min, max), min, max) == val
    ensures Decremented(Incremented(val, min, max), min, max) == val
  {
  }

  /** Within the range, the counters are addition and subtraction of one modulo the range's size. */
  lemma CountersAreModular(val: int, min: int, max: int)
    requires min <= val <= max
    ensures Incremented(val, min, max) == min + (val - min + 1) % (max - min + 1)
    ensures Decremented(val, min, max) == min + (val - min - 1) % (max - min + 1)
  {
    var n := max - min + 1;
    if val == max {
      assert (val - min + 1) % n == 0;
    } else {
      assert (val - min + 1) % n == val - min + 1;
    }
    if val == min {
      assert (val - min - 1) % n == n - 1;
    } else {
      assert (val - min - 1) % n == val - min - 1;
    }
  }

  /** `k` presses of down on a counter at `val`. */
  function IncrementedTimes(val: int, min: int, max: int, k: nat): int
  {
    if k == 0 then val else Incremented(IncrementedTimes(val, min, max, k - 1), min, max)
  }

  /** Up to a whole round of down presses moves the counter `k` places on, wrapping past `max` at most once. */
  lemma {:induction false} IncrementedTimesWraps(val: int, min: int, max: int, k: nat)
    requires min <= val <= max && k <= max - min + 1
    ensures IncrementedTimes(val, min, max, k) == if val + k <= max then val + k else val + k - (max - min + 1)
  {
    if k > 0 {
      IncrementedTimesWraps(val, min, max, k - 1);
    }
  }

  /** A whole round of down presses brings every field back to where it was. */
  lemma FullRound(i: nat, val: int)
    requires i < NUM_FIELDS && Ranges[i].min <= val <= Ranges[i].max
    ensures IncrementedTimes(val, Ranges[i].min, Ranges[i].max, Ranges[i].max - Ranges[i].min + 1) == val
  {
    IncrementedTimesWraps(val, Ranges[i].min, Ranges[i].max, Ranges[i].max - Ranges[i].min + 1);
  }

  // ---------------------------------------------------------------------
  // The field cursor (src/Screens/SetTimeScreen.cpp:123-144)

  /** The two buttons that move the cursor. */
  datatype Nav = MenuPress | BackPress

  /** `setIndex` after one press: menu goes one field on and back one field back, and both leave at the ends. */
  function NextIndex(i: int, key: Nav): int
  {
    match key
    case MenuPress => if i == NUM_FIELDS - 1 then 0 else i + 1
    case BackPress => if i == 0 then 0 else i - 1
  }

  /** Whether a press at field `i` leaves the screen: menu at the last field, back at the first. */
  predicate Leaves(i: int, key: Nav)
  {
    match key
    case MenuPress => i == NUM_FIELDS - 1
    case BackPress => i == 0
  }

  /** `setIndex` after a sequence of presses. */
  function IndexAfter(i: int, keys: seq<Nav>): int
    decreases |keys|
  {
    if keys == [] then i else IndexAfter(NextIndex(i, keys[0]), keys[1..])
  }

  /** Whatever the presses, `setIndex` stays a valid index into the field table. */
  lemma {:induction false} IndexStaysInRange(i: int, keys: seq<Nav>)
    requires 0 <= i < NUM_FIELDS
    ensures 0 <= IndexAfter(i, keys) < NUM_FIELDS
    decreases |keys|
  {
    if keys != [] {
      IndexStaysInRange(NextIndex(i, keys[0]), keys[1..]);
    }
  }

  /** Leaving the screen always resets the cursor, so the next visit starts at the hour. */
  lemma LeavingResets(i: int, key: Nav)
    requires 0 <= i < NUM_FIELDS && Leaves(i, key)
    ensures NextIndex(i, key) == SET_HOUR
  {
  }

  /** Inside the screen, back undoes menu. */
  lemma BackUndoesMenu(i: int)
    requires 0 <= i < NUM_FIELDS - 1
    ensures !Leaves(i, MenuPress) && NextIndex(NextIndex(i, MenuPress), BackPress) == i
  {
  }

  // ---------------------------------------------------------------------
  // The screen

  class SetTimeScreen {
    /** The edited `int16_t` members. */
    var hour: int
    var minute: int
    var year: int
    var month: int
    var day: int
    /** The static `setIndex`, retained across deep sleep. */
    var setIndex: int
    /** The static `blink`, retained across deep sleep. */
    var blink: bool
    /** The file-scope `revert` and `commit` flags, which nothing reads. */
    var revert: bool
    var commit: bool
    /** The global `struct tm tm` that `show` fills in. */
    var tm: CalendarTm
    /** `Screen::parent`, set by the screen that owns this one. */
    var parent: Option<ScreenId>

    /** The members in field order. */
    function Values(): (v: seq<int>)
      reads this
      ensures |v| == NUM_FIELDS
    {
      [hour, minute, year, month, day]
    }

    predicate Valid()
      reads this
    {
      0 <= setIndex < NUM_FIELDS
    }

    /** The object at boot: zero-initialised members and statics. */
    constructor (parent: Option<ScreenId>)
      ensures Valid() && setIndex == 0 && !blink && Values() == [0, 0, 0, 0, 0] && this.parent == parent
    {
      hour, minute, year, month, day := 0, 0, 0, 0, 0;
      setIndex := 0;
      blink := false;
      revert, commit := false, false;
      tm := CalendarTm(0, 0, 0, 0, 0, 0);
      this.parent := parent;
    }

    /**
     * `show` (src/Screens/SetTimeScreen.cpp:49-65) without the drawing:
     * `local` is `localtime_r(now())`; every member is reloaded from it, so
     * edits do not survive a redraw.
     */
    method Show(sys: System, local: CalendarTm)
      requires Valid()
      modifies this, sys
      ensures Valid() && setIndex == old(setIndex) && parent == old(parent)
      ensures tm == local && Values() == [local.hour, local.min, local.year, local.mon, local.mday]
      ensures blink == !old(blink) && !revert && !commit
      ensures sys.log == old(sys.log) + [SetUpdateInterval(1000)]
      ensures sys.screen == old(sys.screen) && sys.err == old(sys.err) && sys.wifiCount == old(sys.wifiCount)
      ensures sys.tasks == old(sys.tasks) && sys.callbacks == old(sys.callbacks)
    {
      Reload(local);
      sys.SetUpdateIntervalMs(1000);
      blink := !blink;
    }

    /** The part of `show` that loads the members from `local` and clears the flags. */
    method Reload(local: CalendarTm)
      modifies this
      ensures tm == local && Values() == [local.hour, local.min, local.year, local.mon, local.mday]
      ensures !revert && !commit
      ensures setIndex == old(setIndex) && parent == old(parent) && blink == old(blink)
    {
      tm := local;
      minute := local.min;
      hour := local.hour;
      day := local.mday;
      month := local.mon;
      year := local.year;
      revert := false;
      commit := false;
    }

    /** Store `v` in the member at field `i`. */
    method SetField(i: int, v: int)
      requires 0 <= i < NUM_FIELDS
      modifies this
      ensures Values() == old(Values())[i := v]
      ensures setIndex == old(setIndex) && blink == old(blink) && tm == old(tm) && parent == old(parent)
      ensures revert == old(revert) && commit == old(commit)
    {
      if i == SET_HOUR {
        hour := v;
      } else if i == SET_MINUTE {
        minute := v;
      } else if i == SET_YEAR {
        year := v;
      } else if i == SET_MONTH {
        month := v;
      } else {
        day := v;
      }
    }

    /** `up` (src/Screens/SetTimeScreen.cpp:113-116): `decrMin` on the field at the cursor. */
    method Up()
      requires Valid()
      modifies this
      ensures Valid() && setIndex == old(setIndex) && tm == old(tm) && parent == old(parent) && blink == old(blink)
      ensures Values() == old(Values())[setIndex := Decremented(old(Values())[setIndex],
                                                                 Ranges[setIndex].min, Ranges[setIndex].max)]
    {
      var r := Ranges[setIndex];
      SetField(setIndex, Decremented(Values()[setIndex], r.min, r.max));
    }

    /** `down` (src/Screens/SetTimeScreen.cpp:118-121): `incrMax` on the field at the cursor. */
    method Down()
      requires Valid()
      modifies this
      ensures Valid() && setIndex == old(setIndex) && tm == old(tm) && parent == old(parent) && blink == old(blink)
      ensures Values() == old(Values())[setIndex := Incremented(old(Values())[setIndex],
                                                                 Ranges[setIndex].min, Ranges[setIndex].max)]
    {
      var r := Ranges[setIndex];
      SetField(setIndex, Incremented(Values()[setIndex], r.min, r.max));
    }

    /** `back` (src/Screens/SetTimeScreen.cpp:123-130). */
    method Back(sys: System)
      requires Valid()
      modifies this, sys
      ensures Valid() && setIndex == NextIndex(old(setIndex), BackPress)
      ensures Values() == old(Values()) && tm == old(tm) && parent == old(parent)
      ensures Leaves(old(setIndex), BackPress) && parent.Some? ==>
                sys.screen == parent && sys.log == old(sys.log) + [WatchFaceShown(true, parent.value)]
      ensures !(Leaves(old(setIndex), BackPress) && parent.Some?) ==> sys.screen == old(sys.screen) && sys.log == old(sys.log)
      ensures sys.err == old(sys.err) && sys.wifiCount == old(sys.wifiCount)
      ensures sys.tasks == old(sys.tasks) && sys.callbacks == old(sys.callbacks)
    {
      if setIndex == 0 {
        setIndex := 0;
        sys.SetScreen(parent);
      } else {
        setIndex := setIndex - 1;
      }
    }

    /**
     * `menu` (src/Screens/SetTimeScreen.cpp:132-144).  At the last field the
     * clocks are set to `mktime` of the global `tm` as `show` last filled it,
     * not of the edited members; `mktime` is a parameter.
     */
    method Menu(sys: System, clocks: Clocks, mktime: CalendarTm -> int)
      requires Valid()
      modifies this, sys, clocks
      ensures Valid() && setIndex == NextIndex(old(setIndex), MenuPress)
      ensures Values() == old(Values()) && tm == old(tm) && parent == old(parent)
      ensures Leaves(old(setIndex), MenuPress) ==>
                clocks.systemTime == mktime(old(tm)) && clocks.rtcTime == mktime(old(tm)) &&
                clocks.posixTime == mktime(old(tm))
      ensures !Leaves(old(setIndex), MenuPress) ==>
                clocks.systemTime == old(clocks.systemTime) && clocks.rtcTime == old(clocks.rtcTime) &&
                clocks.posixTime == old(clocks.posixTime)
      ensures clocks.status == old(clocks.status) && clocks.lastSyncTimeTS == old(clocks.lastSyncTimeTS)
      ensures clocks.pending == old(clocks.pending) && clocks.timezone == old(clocks.timezone)
      ensures Leaves(old(setIndex), MenuPress) && parent.Some? ==>
                sys.screen == parent && sys.log == old(sys.log) + [WatchFaceShown(true, parent.value)]
      ensures !(Leaves(old(setIndex), MenuPress) && parent.Some?) ==> sys.screen == old(sys.screen) && sys.log == old(sys.log)
      ensures sys.err == old(sys.err) && sys.wifiCount == old(sys.wifiCount)
      ensures sys.tasks == old(sys.tasks) && sys.callbacks == old(sys.callbacks)
    {
      if setIndex == NUM_FIELDS - 1 {
        var t := mktime(tm);
        clocks.systemTime := t;
        clocks.rtcTime := t;
        clocks.posixTime := t;
        setIndex := 0;
        sys.SetScreen(parent);
      } else {
        setIndex := setIndex + 1;
      }
    }
  }

  /**
   * Every press of up or down changes the field at the cursor, whatever its
   * value; since neither touches `tm`, a commit after an edit sets the
   * clocks to a time the edited members do not show.
   */
  lemma PressChangesField(i: nat, val: int)
    requires i < NUM_FIELDS
    ensures Decremented(val, Ranges[i].min, Ranges[i].max) != val
    ensures Incremented(val, Ranges[i].min, Ranges[i].max) != val
  {
    assert Ranges[i].min < Ranges[i].max;
  }
}
