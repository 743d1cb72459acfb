/**
 * `getWeather` of src/GetWeather.cpp: the cached weather, refreshed from a
 * weather service at most once per update interval, with the location
 * refreshed on the way while the radio is held.
 *
 * The HTTP request, the JSON reply and the `now()` and RTC readings are
 * parameters.
 */
module GetWeather {

  import opened Watchy
  import opened TimeElements
  import opened TzTable
  import opened GetLocation

  /** The non-floating-point part of `weatherData`. */
  datatype Weather = Weather(temperature: int, weatherConditionCode: int, weatherCity: string)

  /** What the nested `getLocation` is given: its two `now()` readings and the outcomes of its request. */
  datatype LocationReply = LocationReply(checkTime: int, doneTime: int, connectOk: bool, beginOk: bool,
                                         httpCode: int, olson: seq<bv8>, city: string)

  /** `lastGetWeatherTS && now() - lastGetWeatherTS < WEATHER_UPDATE_INTERVAL`: a first call is never too soon. */
  predicate RateLimited(now: int, last: int, interval: int)
  {
    last != 0 && now - last < interval
  }

  /** The retained state of `Watchy_GetWeather`. */
  class WeatherService {
    /** `currentWeather`. */
    var currentWeather: Weather
    /** `lastGetWeatherTS`: when the weather was last fetched. */
    var lastGetWeatherTS: int
    /** `WEATHER_UPDATE_INTERVAL`, whose value is configured outside this model. */
    const interval: int

    /** The start-up values: 22 degrees, condition 800 (clear sky), no city, never fetched. */
    constructor (interval: int)
      ensures currentWeather == Weather(22, 800, "") && lastGetWeatherTS == 0 && this.interval == interval
    {
      currentWeather := Weather(22, 800, "");
      lastGetWeatherTS := 0;
      this.interval := interval;
    }

    /**
     * `getWeather` (src/GetWeather.cpp:15-73).  `checkTime` and `doneTime`
     * are the two readings of `now()`; `connectOk` is the outcome of
     * `connectWiFi` if it is called; `rtcTemperature` is what
     * `RTC.temperature()` returns (the chip's quarter degrees, cut to a byte); `beginOk`, `httpCode`, `replyTemp` and
     * `replyCode` are the request's outcomes and reply; `lr` is everything
     * the nested `getLocation` sees.
     */
    method GetWeather(sys: System, location: LocationService, checkTime: int, doneTime: int, connectOk: bool,
                      rtcTemperature: Byte, beginOk: bool, httpCode: int, replyTemp: int, replyCode: int,
                      lr: LocationReply)
      returns (w: Weather)
      requires sys.Valid() && location.Valid() && 0 in lr.olson
      modifies this, sys, location
      ensures w == currentWeather
      ensures sys.Valid() && sys.wifiCount == old(sys.wifiCount)
      ensures sys.screen == old(sys.screen) && sys.tasks == old(sys.tasks) && sys.callbacks == old(sys.callbacks)
      ensures location.currentLocation == old(location.currentLocation)
      ensures sys.err == WeatherError(RateLimited(checkTime, old(lastGetWeatherTS), interval),
                                      Acquire(old(sys.wifiCount), connectOk).0, beginOk, httpCode)
      ensures sys.log == old(sys.log) + WeatherTrace(RateLimited(checkTime, old(lastGetWeatherTS), interval),
                                                     old(sys.wifiCount), connectOk,
                                                     NestedTrace(location, old(location.lastGetLocationTS),
                                                                 Acquire(old(sys.wifiCount), connectOk).1, lr))
      ensures currentWeather == if sys.err == OK then Weather(replyTemp, replyCode, old(location.currentLocation.city))
                                else if sys.err == WIFI_FAILED then old(currentWeather).(temperature := RtcCelsius(rtcTemperature))
                                else old(currentWeather)
      ensures lastGetWeatherTS == if sys.err == OK then doneTime else old(lastGetWeatherTS)
      ensures location.lastGetLocationTS ==
                if sys.err == OK || sys.err == REQUEST_FAILED
                then NestedStamp(old(location.lastGetLocationTS), Acquire(old(sys.wifiCount), connectOk).1, lr)
                else old(location.lastGetLocationTS)
    {
      if lastGetWeatherTS != 0 && checkTime - lastGetWeatherTS < interval {
        sys.err := RATE_LIMITED;
        return currentWeather;
      }
      ghost var count := sys.wifiCount;
      var ok := sys.GetWiFi(connectOk);
      if !ok {
        sys.err := WIFI_FAILED;
        UseRtcTemperature(rtcTemperature);
        AppendHeld(old(sys.log), count, connectOk, NestedTrace(location, location.lastGetLocationTS, Acquire(count, connectOk).1, lr));
        return currentWeather;
      }
      Request(sys, location, doneTime, beginOk, httpCode, replyTemp, replyCode, lr);
      ghost var nested := NestedTrace(location, old(location.lastGetLocationTS), sys.wifiCount, lr);
      assert sys.wifiCount == Acquire(count, connectOk).1;
      sys.ReleaseWiFi();
      AppendHeld(old(sys.log), count, connectOk, nested);
      w := currentWeather;
    }

    /** Without the radio: the temperature from the clock chip, the condition code kept. */
    method UseRtcTemperature(rtcTemperature: Byte)
      modifies this
      ensures currentWeather == old(currentWeather).(temperature := RtcCelsius(rtcTemperature))
      ensures lastGetWeatherTS == old(lastGetWeatherTS)
    {
      var temperature := RtcCelsius(rtcTemperature);
      currentWeather := currentWeather.(temperature := temperature);
    }

    /** What `getWeather` does while it holds the radio: the nested `getLocation`, then its own request. */
    method Request(sys: System, location: LocationService, doneTime: int, beginOk: bool, httpCode: int,
                   replyTemp: int, replyCode: int, lr: LocationReply)
      requires sys.Valid() && location.Valid() && 0 in lr.olson
      modifies this, sys, location
      ensures sys.Valid() && sys.wifiCount == old(sys.wifiCount)
      ensures sys.screen == old(sys.screen) && sys.tasks == old(sys.tasks) && sys.callbacks == old(sys.callbacks)
      ensures location.currentLocation == old(location.currentLocation)
      ensures location.lastGetLocationTS == NestedStamp(old(location.lastGetLocationTS), old(sys.wifiCount), lr)
      ensures sys.log == old(sys.log) + NestedTrace(location, old(location.lastGetLocationTS), old(sys.wifiCount), lr)
      ensures sys.err == if beginOk && httpCode == 200 then OK else REQUEST_FAILED
      ensures currentWeather == if sys.err == OK then Weather(replyTemp, replyCode, old(location.currentLocation.city))
                                else old(currentWeather)
      ensures lastGetWeatherTS == if sys.err == OK then doneTime else old(lastGetWeatherTS)
    {
      location.GetLocation(sys, lr.checkTime, lr.doneTime, lr.connectOk, lr.beginOk, lr.httpCode, lr.olson, lr.city);
      if !beginOk {
        sys.err := REQUEST_FAILED;
      } else if httpCode == 200 {
        currentWeather := Weather(replyTemp, replyCode, location.currentLocation.city);
        lastGetWeatherTS := doneTime;
        sys.err := OK;
      } else {
        sys.err := REQUEST_FAILED;
      }
    }
  }

  /** `RTC.temperature() / 4`: whole degrees from a byte of quarter degrees, rounded down. */
  function RtcCelsius(reading: Byte): (c: Byte)
    ensures 4 * c <= reading < 4 * c + 4
  {
    reading / 4
  }

  /** The error `getWeather` leaves: rate limit, radio, then request. */
  function WeatherError(rateLimited: bool, wifiOk: bool, beginOk: bool, httpCode: int): Error
  {
    if rateLimited then RATE_LIMITED
    else if !wifiOk then WIFI_FAILED
    else if beginOk && httpCode == 200 then OK
    else REQUEST_FAILED
  }

  /** The actions of `getWeather`: nothing when rate limited, else the nested work inside one hold of the radio. */
  function WeatherTrace(rateLimited: bool, count: int, connectOk: bool, nested: seq<Action>): seq<Action>
  {
    if rateLimited then [] else Held(count, connectOk, nested)
  }

  /** What the nested `getLocation` does to the trace, with `last` its `lastGetLocationTS` and `count` the radio count. */
  function NestedTrace(location: LocationService, last: int, count: int, lr: LocationReply): seq<Action>
    requires IndexesInto(location.zones, |location.posix|) && 0 in lr.olson
  {
    LocationTrace(count, TooSoon(lr.checkTime, last), lr.connectOk, lr.beginOk, lr.httpCode,
                  Located(location.zones, location.posix, lr.olson, lr.city))
  }

  /** The `lastGetLocationTS` the nested `getLocation` leaves. */
  function NestedStamp(last: int, count: int, lr: LocationReply): int
  {
    if !TooSoon(lr.checkTime, last) && FetchError(Acquire(count, lr.connectOk).0, lr.beginOk, lr.httpCode) == OK
    then lr.doneTime else last
  }

  /**
   * `getWeather` pairs its radio use on every path, the nested `getLocation`
   * included: every successful get is matched by one release.
   */
  lemma WeatherTraceBalanced(count: int, connectOk: bool, tooSoon: bool, locConnectOk: bool, locBeginOk: bool,
                             locHttpCode: int, loc: Location)
    requires 0 <= count < UINT_RANGE
    ensures Balanced(Held(count, connectOk,
                          LocationTrace(Acquire(count, connectOk).1, tooSoon, locConnectOk, locBeginOk, locHttpCode, loc)))
  {
    var held := Acquire(count, connectOk).1;
    var nested := LocationTrace(held, tooSoon, locConnectOk, locBeginOk, locHttpCode, loc);
    LocationTracePaired(held, tooSoon, locConnectOk, locBeginOk, locHttpCode, loc);
    HeldPairs(count, connectOk, nested);
  }

  /**
   * While `getWeather` holds the radio, the nested `getLocation` neither
   * connects again nor switches the radio off, so the weather request that
   * follows it still has the connection.
   */
  lemma WeatherKeepsRadio(count: int, connectOk: bool, tooSoon: bool, locConnectOk: bool, locBeginOk: bool,
                          locHttpCode: int, loc: Location)
    requires 0 <= count < UINT_RANGE - 2 && Acquire(count, connectOk).0
    ensures forall a :: a in LocationTrace(Acquire(count, connectOk).1, tooSoon, locConnectOk, locBeginOk, locHttpCode, loc)
                        ==> !a.ConnectWiFi? && a != RadioOff
  {
    var held := Acquire(count, connectOk).1;
    assert held == count + 1;
    NestedLocationKeepsRadio(held, tooSoon, locConnectOk, locBeginOk, locHttpCode, loc);
  }
}
