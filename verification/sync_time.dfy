/**
 * `syncTime` and `timeSyncCallback` of src/SyncTime.cpp: set the clocks
 * from an SNTP server while the radio is held, and wait a bounded time for
 * the completion the callback posts.
 *
 * The SNTP client is a parameter: whether its callback arrives within the
 * wait, and with which `tv_sec`.  The three clocks it sets (the real-time
 * clock chip, the TimeLib system time and the POSIX time of day) are fields.
 */
module SyncTime {

  import opened Watchy

  /** The `sntp_sync_status_t` values. */
  datatype SntpStatus = Reset | Completed | InProgress

  /**
   * The status left behind by a call of `sntp_get_sync_status()`: the
   * ESP-IDF getter reports COMPLETED once and resets it to RESET as it does.
   */
  function StatusAfterGet(s: SntpStatus): (r: SntpStatus)
    ensures r != Completed
    ensures s != Completed ==> r == s
  {
    if s == Completed then Reset else s
  }

  /** `xQueueReceive`'s wait, `pdMS_TO_TICKS(15000)`. */
  const WAIT_MS := 15000

  /** What `syncTime` leaves in `Watchy::err`: unchanged when the clocks were set. */
  function SyncError(status: SntpStatus, wifiOk: bool, reply: Option<int>, err: Error): Error
  {
    if status != Reset then NOT_READY
    else if !wifiOk then WIFI_FAILED
    else if reply.None? then TIMEOUT
    else err
  }

  /** The radio actions of `syncTime`: none while SNTP is busy, else one hold of the radio with nothing inside. */
  function SyncTrace(status: SntpStatus, count: int, connectOk: bool): seq<Action>
  {
    if status != Reset then [] else Held(count, connectOk, [])
  }

  /**
   * `syncTime` pairs its radio use: a busy client takes nothing, a failed
   * connect releases nothing, and a successful get is released exactly once.
   */
  lemma {:induction false} SyncTracePaired(status: SntpStatus, count: int, connectOk: bool)
    requires 0 <= count < UINT_RANGE
    ensures Balanced(SyncTrace(status, count, connectOk))
    ensures multiset(SyncTrace(status, count, connectOk))[WiFiReleased]
            == if status == Reset && Acquire(count, connectOk).0 then 1 else 0
  {
    HeldPairs(count, connectOk, []);
    if status != Reset {
      assert SyncTrace(status, count, connectOk) == [];
    }
  }

  /**
   * A completed sync blocks exactly one later `syncTime`: that call reports
   * NOT_READY and touches no radio, but its status check resets the client,
   * so the call after it takes and releases the radio as a fresh one does.
   */
  lemma {:induction false} CompletedBlocksOnce(count: int, connectOk: bool, wifiOk: bool, reply: Option<int>, err: Error)
    requires 0 <= count < UINT_RANGE
    ensures SyncError(Completed, wifiOk, reply, err) == NOT_READY && SyncTrace(Completed, count, connectOk) == []
    ensures StatusAfterGet(Completed) == Reset
    ensures Balanced(SyncTrace(StatusAfterGet(Completed), count, connectOk))
    ensures multiset(SyncTrace(StatusAfterGet(Completed), count, connectOk))[WiFiReleased]
            == if Acquire(count, connectOk).0 then 1 else 0
  {
    SyncTracePaired(Reset, count, connectOk);
  }

  /** The retained SNTP and clock state. */
  class Clocks {
    /** The SNTP client's sync status, as `sntp_get_sync_status()` reads it. */
    var status: SntpStatus
    /** `lastSyncTimeTS`: the `tv_sec` of the last completed sync, 0 before any. */
    var lastSyncTimeTS: int
    /** The time held by the real-time clock chip (`RTC.set`). */
    var rtcTime: int
    /** The TimeLib system time (`setTime`). */
    var systemTime: int
    /** The POSIX time of day (`settimeofday`). */
    var posixTime: int
    /** Completions waiting in `q`, a queue of one slot. */
    var pending: nat
    /** The timezone last given to `configTzTime`. */
    var timezone: string

    predicate Valid()
      reads this
    {
      pending <= 1
    }

    constructor (rtc: int)
      ensures Valid() && status == Reset && lastSyncTimeTS == 0 && pending == 0
      ensures rtcTime == rtc && systemTime == rtc && posixTime == rtc && timezone == ""
    {
      status := Reset;
      lastSyncTimeTS := 0;
      rtcTime := rtc;
      systemTime := rtc;
      posixTime := rtc;
      pending := 0;
      timezone := "";
    }

    /**
     * `timeSyncCallback` (src/SyncTime.cpp:23-32): all three clocks and
     * `lastSyncTimeTS` take `tvSec`, the status becomes COMPLETED, and one
     * completion is posted without waiting, so it is dropped if the slot is full.
     */
    method TimeSyncCallback(tvSec: int)
      requires Valid()
      modifies this
      ensures Valid() && rtcTime == tvSec && systemTime == tvSec && posixTime == tvSec
      ensures status == Completed && lastSyncTimeTS == tvSec && pending == 1
      ensures timezone == old(timezone)
    {
      rtcTime := tvSec;
      systemTime := tvSec;
      posixTime := tvSec;
      status := Completed;
      lastSyncTimeTS := tvSec;
      if pending < 1 {
        pending := pending + 1;
      }
    }

    /**
     * `syncTime(timezone)` (src/SyncTime.cpp:34-56).  `connectOk` is the
     * outcome of `connectWiFi` if it is called; `reply` is `Some(tv_sec)`
     * when the SNTP callback arrives within the wait and `None` when it does
     * not.  The status check at the start reads the status through
     * `sntp_get_sync_status()`, which resets a COMPLETED status.
     */
    method SyncTime(sys: System, tz: string, connectOk: bool, reply: Option<int>)
      requires Valid() && sys.Valid()
      modifies this, sys
      ensures Valid() && sys.Valid() && sys.wifiCount == old(sys.wifiCount)
      ensures sys.screen == old(sys.screen) && sys.tasks == old(sys.tasks) && sys.callbacks == old(sys.callbacks)
      ensures sys.err == SyncError(old(status), Acquire(old(sys.wifiCount), connectOk).0, reply, old(sys.err))
      ensures sys.log == old(sys.log) + SyncTrace(old(status), old(sys.wifiCount), connectOk)
      ensures var synced := old(status) == Reset && Acquire(old(sys.wifiCount), connectOk).0 && reply.Some?;
              (synced ==> status == Completed && lastSyncTimeTS == reply.value
                          && rtcTime == reply.value && systemTime == reply.value && posixTime == reply.value) &&
              (!synced ==> status == StatusAfterGet(old(status)) && lastSyncTimeTS == old(lastSyncTimeTS) && rtcTime == old(rtcTime)
                           && systemTime == old(systemTime) && posixTime == old(posixTime))
      ensures timezone == if old(status) == Reset && Acquire(old(sys.wifiCount), connectOk).0 then tz else old(timezone)
    {
      if status != Reset {
        status := StatusAfterGet(status);
        sys.err := NOT_READY;
        return;
      }
      ghost var count := sys.wifiCount;
      var ok := sys.GetWiFi(connectOk);
      if !ok {
        sys.err := WIFI_FAILED;
        AppendHeld(old(sys.log), count, connectOk, []);
        return;
      }
      pending := 0;
      timezone := tz;
      if reply.Some? {
        TimeSyncCallback(reply.value);
      }
      if pending > 0 {
        pending := pending - 1;
      } else {
        sys.err := TIMEOUT;
      }
      sys.ReleaseWiFi();
      AppendHeld(old(sys.log), count, connectOk, []);
    }
  }
}
