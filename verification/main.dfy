/**
 * The sketch of src/Screens/main.cpp: the screens it wires together, the
 * boot decisions of `setup` (start the time sync and the location fetch if
 * they have never succeeded, default the screen to the carousel) and the
 * `loop` that should never run.
 *
 * Screens are named by their `ScreenId`; the two background tasks are known
 * by the names they register under.
 */
module Main {

  import opened Watchy
  import opened SyncTime
  import opened GetLocation
  import opened Carousel

  /** TimeLib's `SECS_YR_2000`: the seconds from 1970 to 2000. */
  const SECS_YR_2000 := 946684800

  /** The background tasks `setup` may start. */
  const TimeSyncTask := "timeSync"
  const GetLocationTask := "getLocation"

  /** The screens of the sketch. */
  const CAROUSEL: ScreenId := 0
  const TIME_SCREEN: ScreenId := 1
  const WEATHER_ICON: ScreenId := 2
  const WEATHER_SCREEN: ScreenId := 3
  const BATTERY_ICON: ScreenId := 4
  const SHOW_BATTERY: ScreenId := 5
  const STEPS_ICON: ScreenId := 6
  const SHOW_STEPS: ScreenId := 7
  const ORIENTATION_ICON: ScreenId := 8
  const SHOW_ORIENTATION: ScreenId := 9
  const TEXT_ICON: ScreenId := 10
  const WRAPPED_TEXT: ScreenId := 11
  const BLUETOOTH_ICON: ScreenId := 12
  const SHOW_BLUETOOTH: ScreenId := 13
  const WIFI_ICON: ScreenId := 14
  const SHOW_WIFI: ScreenId := 15
  const SETTINGS_ICON: ScreenId := 16
  const MENU: ScreenId := 17

  /** `carouselItems` (src/Screens/main.cpp:76-84): the time screen first, with no child. */
  const CarouselItems: seq<CarouselItem> := [
    CarouselItem(Some(TIME_SCREEN), None),
    CarouselItem(Some(WEATHER_ICON), Some(WEATHER_SCREEN)),
    CarouselItem(Some(BATTERY_ICON), Some(SHOW_BATTERY)),
    CarouselItem(Some(STEPS_ICON), Some(SHOW_STEPS)),
    CarouselItem(Some(ORIENTATION_ICON), Some(SHOW_ORIENTATION)),
    CarouselItem(Some(TEXT_ICON), Some(WRAPPED_TEXT)),
    CarouselItem(Some(BLUETOOTH_ICON), Some(SHOW_BLUETOOTH)),
    CarouselItem(Some(WIFI_ICON), Some(SHOW_WIFI)),
    CarouselItem(Some(SETTINGS_ICON), Some(MENU))
  ]

  /**
   * The sketch's carousel meets what `CarouselScreen` needs (a size that
   * fits an `int8_t`, a splash on every item), and menu on its first item,
   * the time screen, goes nowhere.
   */
  lemma SketchCarousel()
    ensures 1 <= |CarouselItems| <= INT8_MAX
    ensures forall k :: 0 <= k < |CarouselItems| ==> CarouselItems[k].splash.Some?
    ensures MenuTarget(CarouselItems, 0).None?
    ensures forall k :: 0 < k < |CarouselItems| ==> MenuTarget(CarouselItems, k).Some?
  {
  }

  /** The tasks `setup` starts, in order, given when the clocks and the location were last set. */
  function BootTasks(lastSyncTimeTS: int, lastGetLocationTS: int): seq<Action>
  {
    (if lastSyncTimeTS < SECS_YR_2000 then [TaskBegin(TimeSyncTask)] else [])
    + (if lastGetLocationTS < SECS_YR_2000 then [TaskBegin(GetLocationTask)] else [])
  }

  /**
   * The time sync is started exactly when the clocks have never been set
   * from the network, and the location fetch exactly when the location has
   * never been fetched; nothing else is started.
   */
  lemma BootTasksIff(lastSyncTimeTS: int, lastGetLocationTS: int)
    ensures TaskBegin(TimeSyncTask) in BootTasks(lastSyncTimeTS, lastGetLocationTS) <==> lastSyncTimeTS < SECS_YR_2000
    ensures TaskBegin(GetLocationTask) in BootTasks(lastSyncTimeTS, lastGetLocationTS) <==> lastGetLocationTS < SECS_YR_2000
    ensures forall a :: a in BootTasks(lastSyncTimeTS, lastGetLocationTS) ==>
              a == TaskBegin(TimeSyncTask) || a == TaskBegin(GetLocationTask)
  {
    var s: seq<Action> := if lastSyncTimeTS < SECS_YR_2000 then [TaskBegin(TimeSyncTask)] else [];
    var l: seq<Action> := if lastGetLocationTS < SECS_YR_2000 then [TaskBegin(GetLocationTask)] else [];
    assert BootTasks(lastSyncTimeTS, lastGetLocationTS) == s + l;
    assert TimeSyncTask != GetLocationTask;
  }

  /** `BackgroundTask::begin` on the task registered as `name`, kept abstract. */
  method Begin(sys: System, name: string)
    modifies sys
    ensures sys.log == old(sys.log) + [TaskBegin(name)]
    ensures sys.screen == old(sys.screen) && sys.err == old(sys.err) && sys.wifiCount == old(sys.wifiCount)
    ensures sys.tasks == old(sys.tasks) && sys.callbacks == old(sys.callbacks)
  {
    sys.log := sys.log + [TaskBegin(name)];
  }

  /**
   * `setup` (src/Screens/main.cpp:97-121): start the tasks that have never
   * succeeded, default a null screen to the carousel (a screen retained
   * across deep sleep is kept), and only then run `Watchy::init` with the
   * wake `cause`, its `wakeBits` and the registry after each `handle()`.
   */
  method Setup(sys: System, clocks: Clocks, location: LocationService, cause: WakeCause, wakeBits: bv64,
               registryAfter: seq<multiset<string>>)
    returns (handles: nat, slept: bool)
    modifies sys
    ensures sys.screen == if old(sys.screen).None? then Some(CAROUSEL) else old(sys.screen)
    ensures sys.log == old(sys.log) + BootTasks(clocks.lastSyncTimeTS, location.lastGetLocationTS)
                       + [TaskAdd(InitTask), InitTime] + OnWakes(old(sys.callbacks), cause)
                       + WakeDispatch(cause, wakeBits, sys.screen.value) + [TaskRemove(InitTask)]
                       + Handles(handles) + (if slept then SleepActions else [])
    ensures sys.err == old(sys.err) && sys.wifiCount == old(sys.wifiCount) && sys.callbacks == old(sys.callbacks)
    ensures handles <= |registryAfter| && (slept <==> handles >= 1 && |registryAfter[handles - 1]| == 0)
  {
    if clocks.lastSyncTimeTS < SECS_YR_2000 {
      Begin(sys, TimeSyncTask);
    }
    if location.lastGetLocationTS < SECS_YR_2000 {
      Begin(sys, GetLocationTask);
    }
    assert sys.log == old(sys.log) + BootTasks(clocks.lastSyncTimeTS, location.lastGetLocationTS);
    if sys.screen.None? {
      sys.screen := Some(CAROUSEL);
    }
    handles, slept := sys.Init(cause, wakeBits, registryAfter);
  }

  /** The static counter of `loop`. */
  class Sketch {
    var count: int

    constructor ()
      ensures count == 0
    {
      count := 0;
    }

    /** `loop` (src/Screens/main.cpp:123-131): count the call, then handle every pending event. */
    method Loop(sys: System)
      modifies this, sys
      ensures count == old(count) + 1
      ensures sys.log == old(sys.log) + [HandleAll]
      ensures sys.screen == old(sys.screen) && sys.err == old(sys.err) && sys.wifiCount == old(sys.wifiCount)
      ensures sys.tasks == old(sys.tasks) && sys.callbacks == old(sys.callbacks)
    {
      count := count + 1;
      sys.log := sys.log + [HandleAll];
    }
  }
}
