/**
 * The wake/sleep coordinator of src/Watchy.cpp: what happens between a wake
 * from deep sleep and the next `esp_deep_sleep_start`.
 *
 * The globals of the `Watchy` namespace that the coordinator reads and writes
 * (the active `screen`, the last `err`, the Wi-Fi reference count, the
 * on-wake callbacks) are the fields of one `System` object.  Everything the
 * firmware does to hardware or to code outside this model (the display, the
 * RTC chip, `connectWiFi`, the background-task registry, the
 * `Watchy_Event::Event` queue) is appended to the action trace `log`, so the
 * order of effects can be stated and checked.
 */
module Watchy {

  datatype Option<T> = None | Some(value: T)

  /** The error codes the shown code stores in `Watchy::err`. */
  datatype Error = OK | RATE_LIMITED | WIFI_FAILED | REQUEST_FAILED | NOT_READY | TIMEOUT

  /** The identity of a `Screen` object; a `Screen *` is an `Option<ScreenId>`. */
  type ScreenId = nat

  /** The part of `Watchy_GetLocation::location` that is not floating point. */
  datatype Location = Location(timezone: string, city: string)

  /** The `Watchy_Event::Event` records the coordinator and its callers send. */
  datatype Event = UpdateScreen | MenuBtnDown | BackBtnDown | UpBtnDown | DownBtnDown
                 | LocationUpdate(loc: Location)

  /** `esp_sleep_wakeup_cause_t`. */
  datatype WakeCause = Undefined | All | Ext0 | Ext1 | Timer | Touchpad | Ulp | Gpio | Uart

  /** One observable effect, in the order the firmware performs them. */
  datatype Action =
    | TaskAdd(name: string)          // BackgroundTask::add
    | TaskRemove(name: string)       // BackgroundTask::remove
    | TaskBegin(name: string)        // BackgroundTask::begin
    | InitTime                       // initTime(): clocks set from the RTC
    | OnWake(callback: nat, cause: WakeCause)
    | Sent(event: Event)             // Watchy_Event::Event::send
    | RtcAlarmCleared(alarm: nat)    // RTC.alarm(ALARM_n)
    | RtcConfig                      // _rtcConfig()
    | BmaConfig                      // bmaConfig()
    | WatchFaceShown(partial: bool, screen: ScreenId)
    | Handle                         // Watchy_Event::handle()
    | Hibernate                      // display.hibernate()
    | EnableUpdateTimer              // Watchy_Event::enableUpdateTimer()
    | EnableExt1Wakeup(mask: bv64)   // esp_sleep_enable_ext1_wakeup(mask, ANY_HIGH)
    | DeepSleepStart                 // esp_deep_sleep_start()
    | ConnectWiFi(ok: bool)          // connectWiFi() and its outcome
    | WiFiGot(ok: bool)              // getWiFi() returned ok
    | WiFiReleased                   // releaseWiFi()
    | RadioOff                       // btStop(); WiFi.mode(WIFI_OFF)
    | SetUpdateInterval(ms: int)     // Watchy_Event::setUpdateInterval(ms)
    | HandleAll                      // Watchy_Event::Event::handleAll()

  /** The name the marker task is registered under while `init` dispatches. */
  const InitTask := "init"

  // ---------------------------------------------------------------------
  // Buttons (src/config.h:28-33, src/Watchy.cpp:46-76)

  const MENU_BTN_MASK: bv64 := 0x400_0000     // GPIO_SEL_26
  const BACK_BTN_MASK: bv64 := 0x200_0000     // GPIO_SEL_25
  const UP_BTN_MASK: bv64 := 0x1_0000_0000    // GPIO_SEL_32
  const DOWN_BTN_MASK: bv64 := 0x10           // GPIO_SEL_4
  const BTN_PIN_MASK: bv64 := MENU_BTN_MASK | BACK_BTN_MASK | UP_BTN_MASK | DOWN_BTN_MASK

  /** The switch of `handleButtonPress` on the button bits of the ext1 wake status. */
  function ButtonEvent(wakeBits: bv64): Option<Event>
  {
    var pressed := wakeBits & BTN_PIN_MASK;
    if pressed == MENU_BTN_MASK then Some(MenuBtnDown)
    else if pressed == BACK_BTN_MASK then Some(BackBtnDown)
    else if pressed == UP_BTN_MASK then Some(UpBtnDown)
    else if pressed == DOWN_BTN_MASK then Some(DownBtnDown)
    else None
  }

  function Bit(wakeBits: bv64, mask: bv64): nat
  {
    if wakeBits & mask != 0 then 1 else 0
  }

  /** How many of the four buttons are among the wake bits. */
  function PressedCount(wakeBits: bv64): nat
  {
    Bit(wakeBits, MENU_BTN_MASK) + Bit(wakeBits, BACK_BTN_MASK) + Bit(wakeBits, UP_BTN_MASK) + Bit(wakeBits, DOWN_BTN_MASK)
  }

  /**
   * A button wake sends an event exactly when one button is pressed, and
   * then it is that button's event; other (non-button) wake bits are ignored.
   */
  lemma OneEventIffOneButton(wakeBits: bv64)
    ensures ButtonEvent(wakeBits).Some? <==> PressedCount(wakeBits) == 1
    ensures PressedCount(wakeBits) == 1 && wakeBits & MENU_BTN_MASK != 0 ==> ButtonEvent(wakeBits) == Some(MenuBtnDown)
    ensures PressedCount(wakeBits) == 1 && wakeBits & BACK_BTN_MASK != 0 ==> ButtonEvent(wakeBits) == Some(BackBtnDown)
    ensures PressedCount(wakeBits) == 1 && wakeBits & UP_BTN_MASK != 0 ==> ButtonEvent(wakeBits) == Some(UpBtnDown)
    ensures PressedCount(wakeBits) == 1 && wakeBits & DOWN_BTN_MASK != 0 ==> ButtonEvent(wakeBits) == Some(DownBtnDown)
    ensures ButtonEvent(wakeBits & BTN_PIN_MASK) == ButtonEvent(wakeBits)
  {
  }

  /** The sends of `handleButtonPress`, as actions. */
  function ButtonActions(wakeBits: bv64): seq<Action>
  {
    match ButtonEvent(wakeBits)
    case Some(e) => [Sent(e)]
    case None => []
  }

  // ---------------------------------------------------------------------
  // The Wi-Fi reference count (src/Watchy.cpp:332-357)

  const UINT_RANGE := 0x1_0000_0000

  /**
   * `getWiFi` on an `unsigned int` count: whether it succeeds and the new
   * count.  It fails only when it had to connect and could not, and then
   * leaves the count as it was.
   */
  function Acquire(count: int, connectOk: bool): (r: (bool, int))
    ensures !r.0 <==> count == 0 && !connectOk
    ensures !r.0 ==> r.1 == count
    ensures 0 <= count < UINT_RANGE ==> 0 <= r.1 < UINT_RANGE
  {
    if count == 0 && !connectOk then (false, count) else (true, (count + 1) % UINT_RANGE)
  }

  /**
   * `releaseWiFi`: the new count, and whether the radio is switched off,
   * which happens exactly when the last holder (count 1) lets go.
   */
  function Release(count: int): (r: (int, bool))
    ensures 0 <= r.0 < UINT_RANGE
    ensures r.1 <==> count % UINT_RANGE == 1
  {
    var c := (count - 1) % UINT_RANGE;
    (c, c == 0)
  }

  /**
   * A connection is attempted only when the count is 0; a failed attempt
   * leaves the count unchanged; a successful `getWiFi` followed by
   * `releaseWiFi` restores the count and switches the radio off exactly when
   * the count is back at 0.
   */
  lemma AcquireThenRelease(count: int, connectOk: bool)
    requires 0 <= count < UINT_RANGE
    ensures count != 0 ==> Acquire(count, connectOk) == Acquire(count, !connectOk)
    ensures !Acquire(count, connectOk).0 ==> Acquire(count, connectOk).1 == count
    ensures Acquire(count, connectOk).0 ==> Release(Acquire(count, connectOk).1) == (count, count == 0)
  {
  }

  /** One call on the reference count. */
  datatype WiFiCall = Get(connectOk: bool) | Put

  function Replay(count: int, calls: seq<WiFiCall>): int
    decreases |calls|
  {
    if calls == [] then count
    else
      var c := Replay(count, calls[..|calls| - 1]);
      match calls[|calls| - 1]
      case Get(ok) => Acquire(c, ok).1
      case Put => Release(c).0
  }

  function Gets(calls: seq<WiFiCall>): int
    decreases |calls|
  {
    if calls == [] then 0 else Gets(calls[..|calls| - 1]) + (if calls[|calls| - 1].Get? then 1 else 0)
  }

  /**
   * When every connection attempt succeeds, the count after any sequence of
   * calls is the start count plus gets minus releases, modulo 2^32: a
   * sequence with as many releases as gets restores the count.
   */
  lemma {:induction false} ReplayCounts(count: int, calls: seq<WiFiCall>)
    requires 0 <= count < UINT_RANGE
    requires forall k :: 0 <= k < |calls| ==> calls[k] != Get(false)
    ensures Replay(count, calls) == (count + 2 * Gets(calls) - |calls|) % UINT_RANGE
    decreases |calls|
  {
    if calls != [] {
      var init := calls[..|calls| - 1];
      assert forall k :: 0 <= k < |init| ==> init[k] == calls[k];
      ReplayCounts(count, init);
      var c := Replay(count, init);
      ModStep(count + 2 * Gets(init) - |init|, c);
    }
  }

  lemma ModStep(x: int, c: int)
    requires c == x % UINT_RANGE
    ensures (c + 1) % UINT_RANGE == (x + 1) % UINT_RANGE
    ensures (c - 1) % UINT_RANGE == (x - 1) % UINT_RANGE
  {
  }

  /** What `getWiFi` does to the trace: `connectWiFi` is called only when no one holds the radio. */
  function GetWiFiTrace(count: int, connectOk: bool): seq<Action>
  {
    (if count == 0 then [ConnectWiFi(connectOk)] else []) + [WiFiGot(Acquire(count, connectOk).0)]
  }

  /** What `releaseWiFi` does to the trace: the radio goes off when the count reaches 0. */
  function ReleaseTrace(count: int): seq<Action>
  {
    [WiFiReleased] + (if Release(count).1 then [RadioOff] else [])
  }

  /**
   * The shape of every caller of the reference count: `getWiFi`, and only if
   * it succeeded, the work done with the radio (`inner`) followed by one
   * `releaseWiFi`.
   */
  function Held(count: int, connectOk: bool, inner: seq<Action>): seq<Action>
  {
    var (ok, held) := Acquire(count, connectOk);
    GetWiFiTrace(count, connectOk) + (if ok then inner + ReleaseTrace(held) else [])
  }

  /** Successful gets and releases in a trace balance. */
  predicate Balanced(trace: seq<Action>)
  {
    multiset(trace)[WiFiGot(true)] == multiset(trace)[WiFiReleased]
  }

  /** A log extended by a held stretch of work is the log, the get, the work and the release, one after the other. */
  lemma AppendHeld(log: seq<Action>, count: int, connectOk: bool, inner: seq<Action>)
    ensures Acquire(count, connectOk).0 ==>
              log + Held(count, connectOk, inner)
              == log + GetWiFiTrace(count, connectOk) + inner + ReleaseTrace(Acquire(count, connectOk).1)
    ensures !Acquire(count, connectOk).0 ==> log + Held(count, connectOk, inner) == log + GetWiFiTrace(count, connectOk)
  {
  }

  /**
   * Wrapping balanced work in `Held` keeps it balanced, and adds exactly one
   * release when the get succeeded and none when it failed.
   */
  lemma HeldPairs(count: int, connectOk: bool, inner: seq<Action>)
    requires 0 <= count < UINT_RANGE
    ensures Balanced(inner) ==> Balanced(Held(count, connectOk, inner))
    ensures multiset(Held(count, connectOk, inner))[WiFiReleased]
            == if Acquire(count, connectOk).0 then multiset(inner)[WiFiReleased] + 1 else 0
  {
    var a := Acquire(count, connectOk);
    var g := GetWiFiTrace(count, connectOk);
    TraceCounts(count, connectOk);
    if a.0 {
      TraceCounts(a.1, connectOk);
      var r := ReleaseTrace(a.1);
      assert Held(count, connectOk, inner) == g + inner + r;
      CountConcat(g, inner, r, WiFiGot(true));
      CountConcat(g, inner, r, WiFiReleased);
    } else {
      assert Held(count, connectOk, inner) == g;
    }
  }

  lemma CountConcat(a: seq<Action>, b: seq<Action>, c: seq<Action>, x: Action)
    ensures multiset(a + b + c)[x] == multiset(a)[x] + multiset(b)[x] + multiset(c)[x]
  {
    assert multiset(a + b + c) == multiset(a) + multiset(b) + multiset(c);
  }

  lemma TraceCounts(count: int, connectOk: bool)
    ensures multiset(GetWiFiTrace(count, connectOk))[WiFiGot(true)] == (if Acquire(count, connectOk).0 then 1 else 0)
    ensures multiset(GetWiFiTrace(count, connectOk))[WiFiReleased] == 0
    ensures multiset(ReleaseTrace(count))[WiFiGot(true)] == 0
    ensures multiset(ReleaseTrace(count))[WiFiReleased] == 1
  {
  }

  // ---------------------------------------------------------------------
  // The wake dispatch of init (src/Watchy.cpp:181-222)

  /** The on-wake callbacks, in registration order. */
  function OnWakes(callbacks: seq<nat>, cause: WakeCause): (r: seq<Action>)
    ensures |r| == |callbacks|
    decreases |callbacks|
  {
    if callbacks == [] then [] else OnWakes(callbacks[..|callbacks| - 1], cause) + [OnWake(callbacks[|callbacks| - 1], cause)]
  }

  lemma OnWakesSnoc(callbacks: seq<nat>, i: nat, cause: WakeCause)
    requires i < |callbacks|
    ensures OnWakes(callbacks[..i + 1], cause) == OnWakes(callbacks[..i], cause) + [OnWake(callbacks[i], cause)]
  {
    assert callbacks[..i + 1][..i] == callbacks[..i];
  }

  /** The `switch (wakeup_reason)` of `init`, with `shown` the active screen. */
  function WakeDispatch(cause: WakeCause, wakeBits: bv64, shown: ScreenId): seq<Action>
  {
    match cause
    case Timer => [Sent(UpdateScreen)]
    case Ext0 => [RtcAlarmCleared(1), RtcAlarmCleared(2), Sent(UpdateScreen)]
    case Ext1 => ButtonActions(wakeBits)
    case _ => [RtcConfig, BmaConfig, WatchFaceShown(false, shown)]
  }

  function Sends(trace: seq<Action>): seq<Event>
    decreases |trace|
  {
    if trace == [] then []
    else Sends(trace[..|trace| - 1]) + (if trace[|trace| - 1].Sent? then [trace[|trace| - 1].event] else [])
  }

  /**
   * The timer and the RTC alarm (ext0) produce one `UPDATE_SCREEN`, the RTC
   * alarm only after both alarm flags are cleared; a button wake (ext1)
   * produces the button event, if any; any other cause produces a full
   * redraw and no event.
   */
  lemma WakeEvents(cause: WakeCause, wakeBits: bv64, shown: ScreenId)
    ensures cause == Timer || cause == Ext0 ==> Sends(WakeDispatch(cause, wakeBits, shown)) == [UpdateScreen]
    ensures cause == Ext0 ==> WakeDispatch(cause, wakeBits, shown)[..2] == [RtcAlarmCleared(1), RtcAlarmCleared(2)]
    ensures cause == Ext1 ==>
              Sends(WakeDispatch(cause, wakeBits, shown)) == (if ButtonEvent(wakeBits).Some? then [ButtonEvent(wakeBits).value] else [])
    ensures cause !in {Timer, Ext0, Ext1} ==>
              Sends(WakeDispatch(cause, wakeBits, shown)) == [] && WatchFaceShown(false, shown) in WakeDispatch(cause, wakeBits, shown)
  {
    match cause
    case Timer =>
      SendsOne(Sent(UpdateScreen));
    case Ext0 =>
      SendsThree(RtcAlarmCleared(1), RtcAlarmCleared(2), Sent(UpdateScreen));
    case Ext1 =>
      if ButtonEvent(wakeBits).Some? { SendsOne(Sent(ButtonEvent(wakeBits).value)); }
    case _ =>
      SendsThree(RtcConfig, BmaConfig, WatchFaceShown(false, shown));
  }

  lemma SendsOne(a: Action)
    ensures Sends([a]) == if a.Sent? then [a.event] else []
  {
    assert [a][..0] == [];
  }

  lemma SendsThree(a: Action, b: Action, c: Action)
    ensures Sends([a, b, c]) == Sends([a]) + Sends([b]) + Sends([c])
  {
    assert [a, b, c][..2] == [a, b];
    assert [a, b][..1] == [a];
    SendsOne(a);
    SendsOne(b);
    SendsOne(c);
  }

  /** Every on-wake callback runs, in registration order, before any wake event is sent. */
  lemma CallbacksBeforeEvents(callbacks: seq<nat>, cause: WakeCause, wakeBits: bv64, shown: ScreenId)
    ensures var t := OnWakes(callbacks, cause) + WakeDispatch(cause, wakeBits, shown);
            (forall k :: 0 <= k < |callbacks| ==> t[k] == OnWake(callbacks[k], cause)) &&
            (forall k :: 0 <= k < |t| && t[k].Sent? ==> k >= |callbacks|)
  {
    OnWakesInOrder(callbacks, cause);
  }

  lemma {:induction false} OnWakesInOrder(callbacks: seq<nat>, cause: WakeCause)
    ensures forall k :: 0 <= k < |callbacks| ==> OnWakes(callbacks, cause)[k] == OnWake(callbacks[k], cause)
    decreases |callbacks|
  {
    if callbacks != [] {
      var init := callbacks[..|callbacks| - 1];
      OnWakesInOrder(init, cause);
      assert forall k :: 0 <= k < |init| ==> init[k] == callbacks[k];
    }
  }

  /** `n` calls of `handle()`. */
  function Handles(n: nat): (r: seq<Action>)
    ensures |r| == n && forall k :: 0 <= k < n ==> r[k] == Handle
  {
    if n == 0 then [] else Handles(n - 1) + [Handle]
  }

  /** What `deepSleep` does: ext1 button wake is always armed before sleeping. */
  const SleepActions: seq<Action> := [Hibernate, EnableUpdateTimer, EnableExt1Wakeup(BTN_PIN_MASK), DeepSleepStart]

  // ---------------------------------------------------------------------
  // The coordinator state

  class System {
    /** `Watchy::screen`, retained across deep sleep. */
    var screen: Option<ScreenId>
    /** `Watchy::err`. */
    var err: Error
    /** `wifiConnectionCount`, an `unsigned int`. */
    var wifiCount: int
    /** `owcVec`: the on-wake callbacks registered since this wake. */
    var callbacks: seq<nat>
    /** The names in the background-task registry (kept abstract). */
    var tasks: multiset<string>
    /** Everything done so far, in order. */
    var log: seq<Action>

    predicate Valid()
      reads this
    {
      0 <= wifiCount < UINT_RANGE
    }

    /** A freshly booted system: no screen, no Wi-Fi users, nothing registered. */
    constructor (initialErr: Error)
      ensures Valid() && screen == None && err == initialErr && wifiCount == 0
      ensures callbacks == [] && tasks == multiset{} && log == []
    {
      screen := None;
      err := initialErr;
      wifiCount := 0;
      callbacks := [];
      tasks := multiset{};
      log := [];
    }

    /** `AddOnWakeCallback`. */
    method AddOnWakeCallback(callback: nat)
      modifies this
      ensures callbacks == old(callbacks) + [callback]
      ensures screen == old(screen) && err == old(err) && wifiCount == old(wifiCount)
      ensures tasks == old(tasks) && log == old(log)
    {
      callbacks := callbacks + [callback];
    }

    /** `Watchy_Event::Event::send`: the event joins the event queue. */
    method Send(e: Event)
      modifies this
      ensures log == old(log) + [Sent(e)]
      ensures screen == old(screen) && err == old(err) && wifiCount == old(wifiCount)
      ensures tasks == old(tasks) && callbacks == old(callbacks)
    {
      log := log + [Sent(e)];
    }

    /**
     * `getWiFi` (src/Watchy.cpp:334-346); `connectOk` is the outcome
     * `connectWiFi` has if it is called.
     */
    method GetWiFi(connectOk: bool) returns (ok: bool)
      requires Valid()
      modifies this
      ensures Valid()
      ensures (ok, wifiCount) == Acquire(old(wifiCount), connectOk)
      ensures log == old(log) + GetWiFiTrace(old(wifiCount), connectOk)
      ensures screen == old(screen) && err == old(err) && tasks == old(tasks) && callbacks == old(callbacks)
    {
      if wifiCount == 0 {
        log := log + [ConnectWiFi(connectOk)];
        if !connectOk {
          log := log + [WiFiGot(false)];
          return false;
        }
      }
      wifiCount := (wifiCount + 1) % UINT_RANGE;
      log := log + [WiFiGot(true)];
      ok := true;
    }

    /** `releaseWiFi` (src/Watchy.cpp:348-357): the count wraps below 0 like an `unsigned int`. */
    method ReleaseWiFi()
      requires Valid()
      modifies this
      ensures Valid()
      ensures wifiCount == Release(old(wifiCount)).0
      ensures log == old(log) + ReleaseTrace(old(wifiCount))
      ensures screen == old(screen) && err == old(err) && tasks == old(tasks) && callbacks == old(callbacks)
    {
      wifiCount := (wifiCount - 1) % UINT_RANGE;
      log := log + [WiFiReleased];
      if wifiCount == 0 {
        log := log + [RadioOff];
      }
    }

    /** `showWatchFace(partial)` on the active screen. */
    method ShowWatchFace(partial: bool)
      requires screen.Some?
      modifies this
      ensures screen == old(screen) && err == old(err) && wifiCount == old(wifiCount)
      ensures log == old(log) + [WatchFaceShown(partial, screen.value)]
      ensures tasks == old(tasks) && callbacks == old(callbacks)
    {
      log := log + [WatchFaceShown(partial, screen.value)];
    }

    /** `showWatchFace(partial, s)`: show screen `s`, which need not be the active one. */
    method ShowScreen(partial: bool, s: ScreenId)
      modifies this
      ensures screen == old(screen) && err == old(err) && wifiCount == old(wifiCount)
      ensures log == old(log) + [WatchFaceShown(partial, s)]
      ensures tasks == old(tasks) && callbacks == old(callbacks)
    {
      log := log + [WatchFaceShown(partial, s)];
    }

    /** `Watchy_Event::setUpdateInterval(ms)`: the wake timer's period, kept abstract. */
    method SetUpdateIntervalMs(ms: int)
      modifies this
      ensures log == old(log) + [SetUpdateInterval(ms)]
      ensures screen == old(screen) && err == old(err) && wifiCount == old(wifiCount)
      ensures tasks == old(tasks) && callbacks == old(callbacks)
    {
      log := log + [SetUpdateInterval(ms)];
    }

    /** `setScreen` (src/Watchy.cpp:286-292): a null screen changes nothing. */
    method SetScreen(s: Option<ScreenId>)
      modifies this
      ensures s.None? ==> screen == old(screen) && log == old(log)
      ensures s.Some? ==> screen == s && log == old(log) + [WatchFaceShown(true, s.value)]
      ensures err == old(err) && wifiCount == old(wifiCount) && tasks == old(tasks) && callbacks == old(callbacks)
    {
      if s.None? {
        return;
      }
      screen := s;
      ShowWatchFace(true);
    }

    /** `handleButtonPress` (src/Watchy.cpp:46-76). */
    method HandleButtonPress(wakeBits: bv64)
      modifies this
      ensures log == old(log) + ButtonActions(wakeBits)
      ensures screen == old(screen) && err == old(err) && wifiCount == old(wifiCount)
      ensures tasks == old(tasks) && callbacks == old(callbacks)
    {
      var pressed := wakeBits & BTN_PIN_MASK;
      if pressed == MENU_BTN_MASK {
        Send(MenuBtnDown);
      } else if pressed == BACK_BTN_MASK {
        Send(BackBtnDown);
      } else if pressed == UP_BTN_MASK {
        Send(UpBtnDown);
      } else if pressed == DOWN_BTN_MASK {
        Send(DownBtnDown);
      }
    }

    /** `deepSleep` (src/Watchy.cpp:230-240). */
    method DeepSleep()
      modifies this
      ensures log == old(log) + SleepActions
      ensures screen == old(screen) && err == old(err) && wifiCount == old(wifiCount)
      ensures tasks == old(tasks) && callbacks == old(callbacks)
    {
      log := log + [Hibernate, EnableUpdateTimer];
      log := log + [EnableExt1Wakeup(BTN_PIN_MASK)];
      log := log + [DeepSleepStart];
    }

    /** The `for (owc : owcVec)` loop of `init`. */
    method RunOnWakeCallbacks(cause: WakeCause)
      modifies this
      ensures log == old(log) + OnWakes(callbacks, cause)
      ensures screen == old(screen) && err == old(err) && wifiCount == old(wifiCount)
      ensures tasks == old(tasks) && callbacks == old(callbacks)
    {
      var i := 0;
      while i < |callbacks|
        invariant 0 <= i <= |callbacks|
        invariant log == old(log) + OnWakes(callbacks[..i], cause)
        invariant screen == old(screen) && err == old(err) && wifiCount == old(wifiCount)
        invariant tasks == old(tasks) && callbacks == old(callbacks)
      {
        OnWakesSnoc(callbacks, i, cause);
        log := log + [OnWake(callbacks[i], cause)];
        i := i + 1;
      }
      assert callbacks[..i] == callbacks;
    }

    /** The `switch (wakeup_reason)` of `init` (src/Watchy.cpp:185-222). */
    method DispatchWake(cause: WakeCause, wakeBits: bv64)
      requires screen.Some?
      modifies this
      ensures screen == old(screen) && err == old(err) && wifiCount == old(wifiCount)
      ensures log == old(log) + WakeDispatch(cause, wakeBits, screen.value)
      ensures tasks == old(tasks) && callbacks == old(callbacks)
    {
      match cause {
        case Timer =>
          Send(UpdateScreen);
        case Ext0 =>
          log := log + [RtcAlarmCleared(1), RtcAlarmCleared(2)];
          Send(UpdateScreen);
        case Ext1 =>
          HandleButtonPress(wakeBits);
        case _ =>
          log := log + [RtcConfig, BmaConfig];
          ShowWatchFace(false);
      }
    }

    /**
     * The `do { handle(); } while (running())` drain of `init`.  What one
     * `handle()` does to the task registry is not part of this model:
     * `registryAfter[k]` is the registry after the (k+1)-th call, and the
     * drain stops early, without sleeping, if those run out.
     */
    method Drain(registryAfter: seq<multiset<string>>) returns (handles: nat, done: bool)
      modifies this
      ensures handles <= |registryAfter| && (registryAfter != [] ==> handles >= 1)
      ensures log == old(log) + Handles(handles)
      ensures forall k :: 0 <= k < handles - 1 ==> |registryAfter[k]| > 0
      ensures done <==> handles >= 1 && |registryAfter[handles - 1]| == 0
      ensures tasks == if handles == 0 then old(tasks) else registryAfter[handles - 1]
      ensures screen == old(screen) && err == old(err) && wifiCount == old(wifiCount) && callbacks == old(callbacks)
    {
      handles := 0;
      var running := true;
      while running && handles < |registryAfter|
        invariant handles <= |registryAfter|
        invariant log == old(log) + Handles(handles)
        invariant forall k :: 0 <= k < handles - 1 ==> |registryAfter[k]| > 0
        invariant running <==> handles == 0 || |registryAfter[handles - 1]| > 0
        invariant tasks == if handles == 0 then old(tasks) else registryAfter[handles - 1]
        invariant screen == old(screen) && err == old(err) && wifiCount == old(wifiCount) && callbacks == old(callbacks)
      {
        log := log + [Handle];
        tasks := registryAfter[handles];
        handles := handles + 1;
        running := |tasks| > 0;
      }
      done := !running;
    }

    /**
     * `init` (src/Watchy.cpp:172-228) after a wake for `cause`, with
     * `wakeBits` the ext1 wake status: register the marker task, set the
     * clocks, run the on-wake callbacks, turn the wake cause into an event,
     * remove the marker, drain, and sleep once nothing is running.
     */
    method Init(cause: WakeCause, wakeBits: bv64, registryAfter: seq<multiset<string>>)
      returns (handles: nat, slept: bool)
      requires screen.Some?
      modifies this
      ensures screen == old(screen) && err == old(err) && wifiCount == old(wifiCount) && callbacks == old(callbacks)
      ensures log == old(log) + [TaskAdd(InitTask), InitTime] + OnWakes(callbacks, cause)
                     + WakeDispatch(cause, wakeBits, screen.value) + [TaskRemove(InitTask)]
                     + Handles(handles) + (if slept then SleepActions else [])
      ensures handles <= |registryAfter| && (registryAfter != [] ==> handles >= 1)
      ensures forall k :: 0 <= k < handles - 1 ==> |registryAfter[k]| > 0
      ensures slept <==> handles >= 1 && |registryAfter[handles - 1]| == 0
      ensures tasks == if handles == 0 then old(tasks) else registryAfter[handles - 1]
      ensures slept ==> tasks == multiset{}
    {
      tasks := tasks + multiset{InitTask};
      log := log + [TaskAdd(InitTask), InitTime];
      RunOnWakeCallbacks(cause);
      DispatchWake(cause, wakeBits);
      tasks := tasks - multiset{InitTask};
      log := log + [TaskRemove(InitTask)];
      var done;
      handles, done := Drain(registryAfter);
      if done {
        DeepSleep();
      }
      slept := done;
      assert tasks == if handles == 0 then old(tasks) else registryAfter[handles - 1];
    }
  }

  /** Once `init` has put the watch to sleep, the button wake was armed just before. */
  lemma ButtonWakeArmed(trace: seq<Action>)
    requires |trace| >= |SleepActions| && trace[|trace| - |SleepActions|..] == SleepActions
    ensures trace[|trace| - 1] == DeepSleepStart && trace[|trace| - 2] == EnableExt1Wakeup(BTN_PIN_MASK)
  {
    assert trace[|trace| - 1] == trace[|trace| - |SleepActions|..][3];
    assert trace[|trace| - 2] == trace[|trace| - |SleepActions|..][2];
  }
}
